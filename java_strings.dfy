/** The parts of java.lang.String (and of Lua's tonumber) that the caching engine relies on. */
module JavaStrings {
  import opened Wrappers

  /** String.trim strips every leading and trailing character whose code is at most U+0020. */
  predicate IsTrimmed(c: char) {
    c <= ' '
  }

  function TrimLeft(s: string): (r: string)
    ensures |r| <= |s| && r == s[|s| - |r|..]
    ensures r != [] ==> !IsTrimmed(r[0])
    ensures forall i :: 0 <= i < |s| - |r| ==> IsTrimmed(s[i])
  {
    if s != [] && IsTrimmed(s[0]) then TrimLeft(s[1..]) else s
  }

  function TrimRight(s: string): (r: string)
    ensures |r| <= |s| && r == s[..|r|]
    ensures r != [] ==> !IsTrimmed(r[|r| - 1])
    ensures forall i :: |r| <= i < |s| ==> IsTrimmed(s[i])
  {
    if s != [] && IsTrimmed(s[|s| - 1]) then TrimRight(s[..|s| - 1]) else s
  }

  /** String.trim(). */
  function Trim(s: string): string {
    TrimRight(TrimLeft(s))
  }

  /** A string is blank after trimming exactly when every character of it is trimmed away. */
  lemma TrimIsEmptyIff(s: string)
    ensures Trim(s) == [] <==> forall i :: 0 <= i < |s| ==> IsTrimmed(s[i])
  {
    var l := TrimLeft(s);
    if Trim(s) != [] {
      var k := |s| - |l|;
      assert l != [] && !IsTrimmed(l[0]) && s[k] == l[0];
    }
  }

  /** The trimmed string begins with the first character that is not trimmed away. */
  lemma TrimStartsWithFirstKept(s: string, k: nat)
    requires k < |s| && !IsTrimmed(s[k])
    requires forall i :: 0 <= i < k ==> IsTrimmed(s[i])
    ensures Trim(s) != [] && Trim(s)[0] == s[k]
  {
    var l := TrimLeft(s);
    assert |s| - |l| == k;
    assert l[0] == s[k];
  }

  /** String.startsWith. */
  predicate StartsWith(s: string, prefix: string) {
    |prefix| <= |s| && s[..|prefix|] == prefix
  }

  /** One decimal digit. */
  function DigitChar(d: nat): char
    requires d < 10
  {
    "0123456789"[d]
  }

  function DigitValue(c: char): Option<nat> {
    if '0' <= c <= '9' then Some(c as int - '0' as int) else None
  }

  /** The decimal digits of a natural number, without leading zeros. */
  function Digits(n: nat): (r: string)
    ensures r != []
    decreases n
  {
    if n < 10 then [DigitChar(n)] else Digits(n / 10) + [DigitChar(n % 10)]
  }

  /** String.valueOf(int): optional minus sign, then the digits. */
  function ValueOf(n: int): string {
    if n < 0 then "-" + Digits(-n) else Digits(n)
  }

  /** The value of a non-empty string of decimal digits. */
  function ParseDigits(s: string): Option<nat>
    decreases |s|
  {
    if s == [] then None
    else
      match DigitValue(s[|s| - 1])
      case None => None
      case Some(d) =>
        if |s| == 1 then Some(d)
        else match ParseDigits(s[..|s| - 1])
          case None => None
          case Some(v) => Some(10 * v + d)
  }

  /** Lua's tonumber on a decimal integer literal; None (Lua's nil) for anything else. */
  function ToNumber(s: string): Option<int> {
    if s != [] && s[0] == '-' then
      match ParseDigits(s[1..])
      case None => None
      case Some(v) => Some(-(v as int))
    else
      match ParseDigits(s)
      case None => None
      case Some(v) => Some(v)
  }

  lemma {:induction false} ParseDigitsOfDigits(n: nat)
    ensures ParseDigits(Digits(n)) == Some(n)
    decreases n
  {
    if n >= 10 {
      var s := Digits(n);
      ParseDigitsOfDigits(n / 10);
      assert s[..|s| - 1] == Digits(n / 10);
      assert s[|s| - 1] == DigitChar(n % 10);
    }
  }

  /** Lua's tonumber reads back what Java's String.valueOf wrote. */
  lemma ToNumberOfValueOf(n: int)
    ensures ToNumber(ValueOf(n)) == Some(n)
  {
    if n < 0 {
      var m: nat := -n;
      ParseDigitsOfDigits(m);
      NegatedParse(ValueOf(n), Digits(m));
    } else {
      ToNumberOfNonNegative(n);
    }
  }

  /** tonumber of a minus sign before digits is the negated value of the digits. */
  lemma NegatedParse(s: string, t: string)
    requires s == "-" + t && ParseDigits(t).Some?
    ensures ToNumber(s) == Some(-(ParseDigits(t).value as int))
  {
    assert s[0] == '-' && s[1..] == t;
  }

  lemma ToNumberOfNonNegative(n: int)
    requires n >= 0
    ensures ToNumber(ValueOf(n)) == Some(n)
  {
    var s := ValueOf(n);
    assert s == Digits(n);
    DigitsStartWithDigit(n);
    ParseDigitsOfDigits(n);
  }

  lemma {:induction false} DigitsStartWithDigit(n: nat)
    ensures '0' <= Digits(n)[0] <= '9'
    decreases n
  {
    if n >= 10 {
      DigitsStartWithDigit(n / 10);
      assert Digits(n)[0] == Digits(n / 10)[0];
    }
  }
}

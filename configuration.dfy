/**
 * The RegionsJson attribute of the diagnostics bean: one `{...}` line per configured region,
 * listing the fields present, with the lines separated by ",\n".
 */
module Diagnostics {
  import opened Wrappers
  import opened RegionConfigs

  /** One field of a region's line: its name, `=` and its value in double quotes. */
  function Field(name: string, value: string): (f: string)
    ensures |f| == |name| + |value| + 3
    ensures f[..|name|] == name && f[|name|] == '='
  {
    name + "=\"" + value + "\""
  }

  /** The fields of a region entry that are present, in the order id, ttl, pattern. */
  function PresentFields(c: RegionConfig, render: Duration -> string): (fs: seq<string>)
    ensures |fs| == (if c.id.Some? then 1 else 0) + (if c.ttl.Some? then 1 else 0) + (if c.pattern.Some? then 1 else 0)
  {
    (if c.id.Some? then [Field("id", c.id.value)] else [])
    + (if c.ttl.Some? then [Field("ttl", render(c.ttl.value))] else [])
    + (if c.pattern.Some? then [Field("pattern", c.pattern.value)] else [])
  }

  /** The strings joined with a separator between consecutive ones. */
  function Join(xs: seq<string>, sep: string): string {
    if |xs| == 0 then "" else if |xs| == 1 then xs[0] else xs[0] + sep + Join(xs[1..], sep)
  }

  /** The line of one region: its present fields separated by ", ". */
  function EntryJson(c: RegionConfig, render: Duration -> string): string {
    "{" + Join(PresentFields(c, render), ", ") + "}\n"
  }

  /** The regions' lines, each written by `line`, separated by ",\n". */
  function Lines(regions: seq<RegionConfig>, line: RegionConfig -> string): string
    decreases |regions|
  {
    if |regions| == 0 then ""
    else if |regions| == 1 then line(regions[0])
    else Lines(regions[..|regions| - 1], line) + ",\n" + line(regions[|regions| - 1])
  }

  /** The attribute: the regions' lines separated by ",\n". */
  function RegionsJson(regions: seq<RegionConfig>, render: Duration -> string): string {
    Lines(regions, c => EntryJson(c, render))
  }

  /**
   * The line the source builds for one region. Its `found` flag is cleared by every absent
   * field, so a field gets a separator only when the field just before it is present. That
   * is the intended line except for an id and a pattern around a missing ttl, which lose
   * their separator.
   */
  function EntryJsonAsWritten(c: RegionConfig, render: Duration -> string): (line: string)
    ensures !HasGap(c) ==> line == EntryJson(c, render)
    ensures |line| + (if HasGap(c) then 2 else 0) == |EntryJson(c, render)|
  {
    var idPart := if c.id.Some? then Field("id", c.id.value) else "";
    var ttlPart := if c.ttl.Some? then (if c.id.Some? then ", " else "") + Field("ttl", render(c.ttl.value)) else "";
    var patternPart := if c.pattern.Some? then (if c.ttl.Some? then ", " else "") + Field("pattern", c.pattern.value) else "";
    EntryJsonByFlag(c, render, idPart, ttlPart,
                    if c.pattern.Some? then (if c.id.Some? || c.ttl.Some? then ", " else "") + Field("pattern", c.pattern.value) else "");
    "{" + idPart + ttlPart + patternPart + "}\n"
  }

  /** The attribute as the source builds it: the source's lines separated by ",\n". */
  function RegionsJsonAsWritten(regions: seq<RegionConfig>, render: Duration -> string): string {
    Lines(regions, c => EntryJsonAsWritten(c, render))
  }

  /** The case the source's flag gets wrong: an id and a pattern around a missing ttl. */
  predicate HasGap(c: RegionConfig) {
    c.id.Some? && c.ttl.None? && c.pattern.Some?
  }

  lemma JoinOfTwo(a: string, b: string, sep: string)
    ensures Join([a, b], sep) == a + sep + b
  {
    assert [a, b][1..] == [b];
  }

  lemma JoinOfThree(a: string, b: string, c: string, sep: string)
    ensures Join([a, b, c], sep) == a + sep + b + sep + (c)
  {
    assert [a, b, c][1..] == [b, c];
    JoinOfTwo(b, c, sep);
  }

  lemma RegroupTwo(o: string, a: string, b: string, cl: string, s: string)
    ensures o + (a + s + b) + cl == o + a + (s + b) + cl
  {
  }

  lemma RegroupThree(o: string, a: string, b: string, c: string, cl: string, s: string)
    ensures o + (a + s + b + s + c) + cl == o + a + (s + b) + (s + c) + cl
  {
  }

  /**
   * A region's line written field by field: a field's text is preceded by a separator when
   * some earlier field was present.
   */
  lemma EntryJsonByFlag(c: RegionConfig, render: Duration -> string, idPart: string, ttlPart: string, patternPart: string)
    requires idPart == if c.id.Some? then Field("id", c.id.value) else ""
    requires ttlPart == if c.ttl.Some? then (if c.id.Some? then ", " else "") + Field("ttl", render(c.ttl.value)) else ""
    requires patternPart == if c.pattern.Some? then (if c.id.Some? || c.ttl.Some? then ", " else "") + Field("pattern", c.pattern.value) else ""
    ensures EntryJson(c, render) == "{" + idPart + ttlPart + patternPart + "}\n"
  {
    if c.pattern.Some? && (c.id.Some? || c.ttl.Some?) {
      EntryJsonWithPattern(c, render, idPart, ttlPart, patternPart);
    } else if c.id.Some? && c.ttl.Some? {
      var i, t := Field("id", c.id.value), Field("ttl", render(c.ttl.value));
      assert PresentFields(c, render) == [i, t];
      JoinOfTwo(i, t, ", ");
      RegroupTwo("{", i, t, "}\n", ", ");
    } else {
      EntryJsonOneField(c, render, idPart, ttlPart, patternPart);
    }
  }

  /** EntryJsonByFlag when a pattern follows an id, a ttl or both. */
  lemma EntryJsonWithPattern(c: RegionConfig, render: Duration -> string, idPart: string, ttlPart: string, patternPart: string)
    requires c.pattern.Some? && (c.id.Some? || c.ttl.Some?)
    requires idPart == if c.id.Some? then Field("id", c.id.value) else ""
    requires ttlPart == if c.ttl.Some? then (if c.id.Some? then ", " else "") + Field("ttl", render(c.ttl.value)) else ""
    requires patternPart == if c.pattern.Some? then (if c.id.Some? || c.ttl.Some? then ", " else "") + Field("pattern", c.pattern.value) else ""
    ensures EntryJson(c, render) == "{" + idPart + ttlPart + patternPart + "}\n"
  {
    var p := Field("pattern", c.pattern.value);
    if c.id.Some? && c.ttl.Some? {
      FullEntryJson(c, render);
    } else if c.id.Some? {
      var i := Field("id", c.id.value);
      assert PresentFields(c, render) == [i, p];
      JoinOfTwo(i, p, ", ");
      RegroupTwo("{", i, p, "}\n", ", ");
    } else {
      var t := Field("ttl", render(c.ttl.value));
      assert PresentFields(c, render) == [t, p];
      JoinOfTwo(t, p, ", ");
      RegroupTwo("{", t, p, "}\n", ", ");
    }
  }

  /** The line of a region with all three fields. */
  lemma FullEntryJson(c: RegionConfig, render: Duration -> string)
    requires c.id.Some? && c.ttl.Some? && c.pattern.Some?
    ensures EntryJson(c, render)
         == "{" + Field("id", c.id.value) + (", " + Field("ttl", render(c.ttl.value))) + (", " + Field("pattern", c.pattern.value)) + "}\n"
  {
    var i, t, p := Field("id", c.id.value), Field("ttl", render(c.ttl.value)), Field("pattern", c.pattern.value);
    assert PresentFields(c, render) == [i, t, p];
    JoinOfThree(i, t, p, ", ");
    RegroupThree("{", i, t, p, "}\n", ", ");
  }

  /** EntryJsonByFlag when at most one field is present. */
  lemma EntryJsonOneField(c: RegionConfig, render: Duration -> string, idPart: string, ttlPart: string, patternPart: string)
    requires (if c.id.Some? then 1 else 0) + (if c.ttl.Some? then 1 else 0) + (if c.pattern.Some? then 1 else 0) <= 1
    requires idPart == if c.id.Some? then Field("id", c.id.value) else ""
    requires ttlPart == if c.ttl.Some? then (if c.id.Some? then ", " else "") + Field("ttl", render(c.ttl.value)) else ""
    requires patternPart == if c.pattern.Some? then (if c.id.Some? || c.ttl.Some? then ", " else "") + Field("pattern", c.pattern.value) else ""
    ensures EntryJson(c, render) == "{" + idPart + ttlPart + patternPart + "}\n"
  {
    var fs := PresentFields(c, render);
    if c.id.Some? {
      assert fs == [Field("id", c.id.value)];
    } else if c.ttl.Some? {
      assert fs == [Field("ttl", render(c.ttl.value))];
    } else if c.pattern.Some? {
      assert fs == [Field("pattern", c.pattern.value)];
    } else {
      assert fs == [];
    }
  }

  /** The input that shows it: id "a" and pattern "/x" without a ttl. */
  lemma AsWrittenDropsSeparatorAfterGap(render: Duration -> string)
    ensures EntryJsonAsWritten(RegionConfig(Some("a"), None, Some("/x")), render) == "{" + "id=\"a\"" + "pattern=\"/x\"" + "}\n"
  {
  }

  /** The intended line for the same input keeps the separator. */
  lemma IntendedKeepsSeparatorAfterGap(render: Duration -> string)
    ensures EntryJson(RegionConfig(Some("a"), None, Some("/x")), render) == "{" + "id=\"a\"" + ", " + "pattern=\"/x\"" + "}\n"
  {
    var c := RegionConfig(Some("a"), None, Some("/x"));
    EntryJsonByFlag(c, render, Field("id", "a"), "", ", " + Field("pattern", "/x"));
  }

  /** The lines of one more region: the earlier text, a separator unless it is the first, its line. */
  lemma LinesSnoc(regions: seq<RegionConfig>, c: RegionConfig, line: RegionConfig -> string)
    ensures Lines(regions + [c], line) == (if |regions| == 0 then "" else Lines(regions, line) + ",\n") + line(c)
  {
    assert (regions + [c])[..|regions|] == regions;
  }

  /** The attribute with one more region: the earlier text, a separator, the new line. */
  lemma RegionsJsonSnoc(regions: seq<RegionConfig>, c: RegionConfig, render: Duration -> string)
    ensures RegionsJson(regions + [c], render)
         == (if |regions| == 0 then "" else RegionsJson(regions, render) + ",\n") + EntryJson(c, render)
  {
    LinesSnoc(regions, c, c => EntryJson(c, render));
  }

  /**
   * getRegionsJson: loops over the regions, writing the separator before every region but the
   * first and then the region's fields. A present field sets the `found` flag and an absent one
   * clears it, and a field is preceded by ", " when the flag is set.
   */
  method GetRegionsJson(regions: seq<RegionConfig>, render: Duration -> string) returns (json: string)
    ensures json == RegionsJsonAsWritten(regions, render)
  {
    var out := "";
    var counter := 0;
    for i := 0 to |regions|
      invariant counter == i
      invariant out == RegionsJsonAsWritten(regions[..i], render)
    {
      var region := regions[i];
      LinesSnoc(regions[..i], region, c => EntryJsonAsWritten(c, render));
      assert regions[..i + 1] == regions[..i] + [region];
      if counter > 0 {
        out := out + ",\n";
      }
      counter := counter + 1;
      var found := false;
      var idPart, ttlPart, patternPart := "", "", "";
      if region.id.Some? {
        idPart := Field("id", region.id.value);
        found := true;
      } else {
        found := false;
      }
      if region.ttl.Some? {
        if found {
          ttlPart := ", ";
        }
        ttlPart := ttlPart + Field("ttl", render(region.ttl.value));
        found := true;
      } else {
        found := false;
      }
      if region.pattern.Some? {
        if found {
          patternPart := ", ";
        }
        patternPart := patternPart + Field("pattern", region.pattern.value);
        found := true;
      } else {
        found := false;
      }
      out := out + ("{" + idPart + ttlPart + patternPart + "}\n");
    }
    assert regions[..|regions|] == regions;
    json := out;
  }

  /** The number of regions with the gap. */
  function Gaps(regions: seq<RegionConfig>): nat
    decreases |regions|
  {
    if |regions| == 0 then 0 else Gaps(regions[..|regions| - 1]) + if HasGap(regions[|regions| - 1]) then 1 else 0
  }

  /** The source's attribute is shorter than the intended one by two characters per gap. */
  lemma {:induction false} AsWrittenLength(regions: seq<RegionConfig>, render: Duration -> string)
    ensures |RegionsJsonAsWritten(regions, render)| + 2 * Gaps(regions) == |RegionsJson(regions, render)|
    decreases |regions|
  {
    if |regions| > 0 {
      var init, last := regions[..|regions| - 1], regions[|regions| - 1];
      assert regions == init + [last];
      LinesSnoc(init, last, c => EntryJson(c, render));
      LinesSnoc(init, last, c => EntryJsonAsWritten(c, render));
      AsWrittenLength(init, render);
    }
  }

  /** Without any gap, the source's attribute is the intended one. */
  lemma {:induction false} AsWrittenAgreesWithoutGaps(regions: seq<RegionConfig>, render: Duration -> string)
    requires forall i :: 0 <= i < |regions| ==> !HasGap(regions[i])
    ensures RegionsJsonAsWritten(regions, render) == RegionsJson(regions, render)
    decreases |regions|
  {
    if |regions| > 0 {
      var init, last := regions[..|regions| - 1], regions[|regions| - 1];
      assert regions == init + [last];
      LinesSnoc(init, last, c => EntryJson(c, render));
      LinesSnoc(init, last, c => EntryJsonAsWritten(c, render));
      AsWrittenAgreesWithoutGaps(init, render);
    }
  }

  /** A region with the gap is counted. */
  lemma {:induction false} GapIsCounted(regions: seq<RegionConfig>, i: int)
    requires 0 <= i < |regions| && HasGap(regions[i])
    ensures Gaps(regions) > 0
    decreases |regions|
  {
    if i < |regions| - 1 {
      GapIsCounted(regions[..|regions| - 1], i);
    }
  }

  /** The source's attribute is the intended one exactly when no region has the gap. */
  lemma AsWrittenAgreesIffNoGap(regions: seq<RegionConfig>, render: Duration -> string)
    ensures RegionsJsonAsWritten(regions, render) == RegionsJson(regions, render)
        <==> forall i :: 0 <= i < |regions| ==> !HasGap(regions[i])
  {
    if forall i :: 0 <= i < |regions| ==> !HasGap(regions[i]) {
      AsWrittenAgreesWithoutGaps(regions, render);
    } else {
      var i :| 0 <= i < |regions| && HasGap(regions[i]);
      GapIsCounted(regions, i);
      AsWrittenLength(regions, render);
    }
  }

  /** No regions, no text. */
  lemma NoRegionsNoText(render: Duration -> string)
    ensures RegionsJson([], render) == ""
  {
  }

  /** The line of a region with all three fields, written out. */
  lemma SampleLine(c: RegionConfig, render: Duration -> string, id: string, ttl: string, pattern: string)
    requires c.id == Some(id) && c.ttl.Some? && render(c.ttl.value) == ttl && c.pattern == Some(pattern)
    ensures EntryJson(c, render) == "{id=\"" + id + "\", ttl=\"" + ttl + "\", pattern=\"" + pattern + "\"}\n"
  {
    FullEntryJson(c, render);
    var q := "\"";
    assert "{" + "id" + "=\"" == "{id=\"";
    assert q + ", " + "ttl" + "=\"" == "\", ttl=\"";
    assert q + ", " + "pattern" + "=\"" == "\", pattern=\"";
    assert q + "}\n" == "\"}\n";
    RegroupLine("{", "id", "=\"", id, q, ", ", "ttl", ttl, "pattern", pattern, "}\n");
  }

  /** The line's pieces regrouped: each field's closing quote joins the next separator. */
  lemma RegroupLine(o: string, n1: string, eq: string, v1: string, q: string, s: string,
                    n2: string, v2: string, n3: string, v3: string, cl: string)
    ensures o + (n1 + eq + v1 + q) + (s + (n2 + eq + v2 + q)) + (s + (n3 + eq + v3 + q)) + cl
         == (o + n1 + eq) + v1 + (q + s + n2 + eq) + v2 + (q + s + n3 + eq) + v3 + (q + cl)
  {
  }

  /**
   * The attribute for the three regions of the sample configuration, as the source writes it;
   * no field is missing, so it is also the intended text.
   */
  lemma SampleConfigurationJson(render: Duration -> string)
    requires render(Duration(1_800_000_000_000)) == "PT30M"
    requires render(Duration(129_000_000_000)) == "PT2M9S"
    requires render(Duration(4_000_000)) == "PT0.004S"
    ensures RegionsJsonAsWritten([RegionConfig(Some("bestsellers"), Some(Duration(1_800_000_000_000)), Some("/api/v1/bestsellers/{D}")),
                                  RegionConfig(Some("users"), Some(Duration(129_000_000_000)), Some("/api/v1/users/{S}")),
                                  RegionConfig(Some("events"), Some(Duration(4_000_000)), Some("/api/v1/events/{D}"))], render)
         == RegionsJson([RegionConfig(Some("bestsellers"), Some(Duration(1_800_000_000_000)), Some("/api/v1/bestsellers/{D}")),
                         RegionConfig(Some("users"), Some(Duration(129_000_000_000)), Some("/api/v1/users/{S}")),
                         RegionConfig(Some("events"), Some(Duration(4_000_000)), Some("/api/v1/events/{D}"))], render)
    ensures RegionsJson([RegionConfig(Some("bestsellers"), Some(Duration(1_800_000_000_000)), Some("/api/v1/bestsellers/{D}")),
                         RegionConfig(Some("users"), Some(Duration(129_000_000_000)), Some("/api/v1/users/{S}")),
                         RegionConfig(Some("events"), Some(Duration(4_000_000)), Some("/api/v1/events/{D}"))], render)
         == ("{id=\"" + "bestsellers" + "\", ttl=\"" + "PT30M" + "\", pattern=\"" + "/api/v1/bestsellers/{D}" + "\"}\n")
            + ",\n"
            + ("{id=\"" + "users" + "\", ttl=\"" + "PT2M9S" + "\", pattern=\"" + "/api/v1/users/{S}" + "\"}\n")
            + ",\n"
            + ("{id=\"" + "events" + "\", ttl=\"" + "PT0.004S" + "\", pattern=\"" + "/api/v1/events/{D}" + "\"}\n")
  {
    var b := RegionConfig(Some("bestsellers"), Some(Duration(1_800_000_000_000)), Some("/api/v1/bestsellers/{D}"));
    var u := RegionConfig(Some("users"), Some(Duration(129_000_000_000)), Some("/api/v1/users/{S}"));
    var e := RegionConfig(Some("events"), Some(Duration(4_000_000)), Some("/api/v1/events/{D}"));
    RegionsJsonSnoc([], b, render);
    RegionsJsonSnoc([b], u, render);
    RegionsJsonSnoc([b, u], e, render);
    assert [] + [b] == [b];
    assert [b] + [u] == [b, u];
    assert [b, u] + [e] == [b, u, e];
    assert RegionsJson([b, u, e], render) == EntryJson(b, render) + ",\n" + EntryJson(u, render) + ",\n" + EntryJson(e, render);
    SampleLine(b, render, "bestsellers", "PT30M", "/api/v1/bestsellers/{D}");
    SampleLine(u, render, "users", "PT2M9S", "/api/v1/users/{S}");
    SampleLine(e, render, "events", "PT0.004S", "/api/v1/events/{D}");
    AsWrittenAgreesWithoutGaps([b, u, e], render);
  }
}

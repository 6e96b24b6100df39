/**
 * The CacheRepository contract: the stored entry, the result of a conditional fetch and the
 * shapes that result takes, and the single exception every persistence failure surfaces as.
 */
module CacheRepository {
  import opened Wrappers

  /** The record stored under one key: four named fields. */
  datatype Entry = Entry(payload: string, etag: string, contentType: string, encoding: string)

  /** CacheQueryResult; a None field is the source's null. */
  datatype CacheQueryResult = CacheQueryResult(
    upsertNeeded: bool,
    payload: Option<string>,
    storedEtag: Option<string>,
    contentType: Option<string>,
    encoding: Option<string>)

  const NO_RESULT_FOUND: CacheQueryResult := CacheQueryResult(true, None, None, None, None)
  const RESULT_FOUND_BUT_NOT_CHANGED: CacheQueryResult := CacheQueryResult(false, None, None, None, None)

  /** The full result for a stored entry. */
  function Found(e: Entry): CacheQueryResult {
    CacheQueryResult(false, Some(e.payload), Some(e.etag), Some(e.contentType), Some(e.encoding))
  }

  /** What the storage backend or its client library can throw. */
  datatype BackendError =
    | JedisDataException(message: string)        // a reply of the server reporting an error
    | JedisConnectionException(message: string)  // transport failure

  /** The cause wrapped by CacheRepositoryException. */
  datatype Cause =
    | IllegalArgument(message: string)
    | Backend(error: BackendError)

  datatype CacheRepositoryException = CacheRepositoryException(cause: Cause)

  /**
   * The four result shapes a fetchIfChanged implementation promises, given the entry stored
   * for the key (None when there is none) and the client's etag (None when it sent none).
   */
  predicate FetchContract(stored: Option<Entry>, etag: Option<string>, r: CacheQueryResult) {
    match stored
    case None => r.upsertNeeded && r.payload.None? && r.storedEtag.None?
    case Some(e) =>
      && !r.upsertNeeded
      && if etag.None? then r.payload == Some(e.payload) && r.storedEtag == Some(e.etag)
         else if etag.value == e.etag then r.payload.None? && r.storedEtag.None?
         else r.payload == Some(e.payload) && r.storedEtag == Some(e.etag)
  }
}

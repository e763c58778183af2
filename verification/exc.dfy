/**
 * Exceptions of the pipeline (weko_group_cache_db/exc.py) together with the
 * library exceptions the pipeline catches, raises or lets through.  Python's
 * class hierarchy is flattened into one datatype; `Retryable` and
 * `IsCacheDbError` stand for the two `isinstance` tests the code performs.
 */
module Exc {
  import opened Wrappers
  import Strings

  datatype PyError =
    | RequestException(message: string)   // requests.RequestException and its subclasses
    | RedisError(message: string)         // redis.RedisError and its subclasses
    | CacheDbError(message: string)       // WekoGroupCacheDbError, the common base
    | UpdateError(fqdn: string, origin: Option<PyError>)
    | ConfigurationError(message: string)
    | ExceptionGroup(message: string, exceptions: seq<PyError>)
    | ValueError(message: string)
    | TypeError(message: string)
    | KeyError(key: string)
    | AttributeError(message: string)
    | OSError(message: string)            // OSError and its subclasses other than FileNotFoundError
    | PlainException(message: string)     // a bare `Exception(...)`

  datatype Result<T> = Ok(value: T) | Err(error: PyError)

  /** The two error classes the retry decorator and the orchestrators catch. */
  predicate Retryable(e: PyError) {
    e.RequestException? || e.RedisError?
  }

  /** `isinstance(e, WekoGroupCacheDbError)` */
  predicate IsCacheDbError(e: PyError) {
    e.CacheDbError? || e.UpdateError? || e.ConfigurationError?
  }

  /** `UpdateError(fqdn, origin)`; `origin` defaults to None. */
  function NewUpdateError(fqdn: string, origin: Option<PyError> := None): (e: PyError)
    ensures e.UpdateError? && IsCacheDbError(e)
    ensures e.fqdn == fqdn && e.origin == origin
  {
    UpdateError(fqdn, origin)
  }

  /**
   * `WekoGroupCacheDbError(message, origin=...)`.  The base class declares no
   * initializer, so it inherits `Exception.__init__`, which takes no keyword
   * arguments: passing `origin` raises TypeError instead of building an error.
   */
  function NewCacheDbError(message: string, origin: Option<PyError>): (r: Result<PyError>)
    ensures r.Ok? <==> origin.None?
    ensures r.Ok? ==> IsCacheDbError(r.value) && !r.value.UpdateError?
    ensures r.Err? ==> r.error.TypeError? && !IsCacheDbError(r.error)
  {
    if origin.Some? then Err(TypeError("WekoGroupCacheDbError() takes no keyword arguments"))
    else Ok(CacheDbError(message))
  }

  /** `str(e)` */
  function Str(e: PyError): (s: string)
    decreases e
  {
    match e
    case UpdateError(fqdn, origin) =>
      "FQDN: " + fqdn + ", " + (if origin.Some? then Str(origin.value) else "None")
    case ExceptionGroup(message, exceptions) =>
      message + " (" + Strings.NatToString(|exceptions|) + CountTail(|exceptions|)
    case KeyError(key) => "'" + key + "'"
    case RequestException(m) => m
    case RedisError(m) => m
    case CacheDbError(m) => m
    case ConfigurationError(m) => m
    case ValueError(m) => m
    case TypeError(m) => m
    case AttributeError(m) => m
    case OSError(m) => m
    case PlainException(m) => m
  }

  /** The text after a group's count: " sub-exception" or " sub-exceptions", then ")". */
  function CountTail(k: nat): string {
    " sub-exception" + (if k == 1 then "" else "s") + ")"
  }

  /** Two groups with the same message print alike only if they hold as many exceptions. */
  lemma GroupStrNamesCount(message: string, es: seq<PyError>, fs: seq<PyError>)
    requires Str(ExceptionGroup(message, es)) == Str(ExceptionGroup(message, fs))
    ensures |es| == |fs|
  {
    var p := message + " (";
    var a := Strings.NatToString(|es|);
    var b := Strings.NatToString(|fs|);
    assert Str(ExceptionGroup(message, es)) == p + (a + CountTail(|es|));
    assert Str(ExceptionGroup(message, fs)) == p + (b + CountTail(|fs|));
    assert a + CountTail(|es|) == Str(ExceptionGroup(message, es))[|p|..];
    assert b + CountTail(|fs|) == Str(ExceptionGroup(message, fs))[|p|..];
    Strings.NatToStringBeforeText(|es|, |fs|, CountTail(|es|), CountTail(|fs|));
  }

  /** Reads the fqdn back out of an `UpdateError` message: the text between "FQDN: " and the first comma. */
  function FqdnOfMessage(m: string): Option<string> {
    if !Strings.StartsWith(m, "FQDN: ") then None
    else
      var rest := m[6..];
      match Strings.Find(rest, ",")
      case None => None
      case Some(i) => Some(rest[..i])
  }

  /**
   * The string form of an UpdateError is "FQDN: <fqdn>, <origin>": it ends
   * with the origin's own message, and the fqdn can be read back from it
   * whenever the fqdn holds no comma.
   */
  lemma UpdateErrorMessage(fqdn: string, origin: Option<PyError>)
    ensures var m := Str(UpdateError(fqdn, origin));
      && Strings.StartsWith(m, "FQDN: " + fqdn + ", ")
      && (origin.Some? ==> m[|m| - |Str(origin.value)|..] == Str(origin.value))
      && (',' !in fqdn ==> FqdnOfMessage(m) == Some(fqdn))
  {
    var tail := if origin.Some? then Str(origin.value) else "None";
    var m := "FQDN: " + fqdn + ", " + tail;
    assert m == Str(UpdateError(fqdn, origin));
    assert m[..|"FQDN: " + fqdn + ", "|] == "FQDN: " + fqdn + ", ";
    if ',' !in fqdn {
      var rest := m[6..];
      assert rest == fqdn + ", " + tail;
      assert Strings.MatchesAt(rest, ",", |fqdn|) by {
        assert rest[|fqdn|..|fqdn| + 1] == ",";
      }
      forall j | 0 <= j < |fqdn| ensures !Strings.MatchesAt(rest, ",", j) {
        assert rest[j] == fqdn[j];
      }
      assert Strings.Find(rest, ",") == Some(|fqdn|);
      assert rest[..|fqdn|] == fqdn;
    }
  }
}

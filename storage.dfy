/**
 * The two JSON files the browser keeps, `history.json` and `bookmarks.json`,
 * seen only through what `json.load` makes of them: `None` when the file is
 * missing or is not valid JSON (`json.load` raises, and the caller catches
 * it), otherwise `Some` of the decoded JSON value.
 */
module Storage {
  import opened Wrappers

  /**
   * A decoded JSON document, as far as the browser's code can tell values
   * apart: an array of address strings, an object (only its keys matter to
   * `in`), a string, or a number, `true`, `false` or `null`.
   */
  datatype JsonValue =
    | JsonArray(entries: seq<string>)
    | JsonObject(keys: set<string>)
    | JsonString(text: string)
    | JsonScalar

  type FileContents = Option<JsonValue>

  /** The Python exceptions the browser's list code can raise on a value that is not a list. */
  datatype PyError = AttributeError | TypeError

  /**
   * Reading a log file: a missing or undecodable file is swallowed and the log
   * starts over as an empty list. A file that decodes to some other JSON value
   * is passed on as that value; the code that uses it then fails.
   */
  function LoadOrEmpty(file: FileContents): (v: JsonValue)
    ensures file.None? ==> v == JsonArray([])
    ensures file.Some? ==> v == file.value
  {
    match file
    case Some(value) => value
    case None => JsonArray([])
  }

  /** Python's `p in s` on two strings: `p` occurs in `s` as a contiguous run. */
  predicate IsSubstring(p: string, s: string) {
    exists i :: 0 <= i <= |s| && p <= s[i..]
  }

  /**
   * Python's `x in v` for the loaded value `v`: list membership, key
   * membership, substring, or a TypeError on a number, a boolean or null.
   */
  function Contains(v: JsonValue, x: string): (r: Result<bool, PyError>)
    ensures r.Failure? <==> v.JsonScalar?
    ensures r.Failure? ==> r.error == TypeError
    ensures v.JsonArray? ==> r == Success(x in v.entries)
    ensures v.JsonObject? ==> r == Success(x in v.keys)
    ensures v.JsonString? ==> r == Success(IsSubstring(x, v.text))
  {
    match v
    case JsonArray(entries) => Success(x in entries)
    case JsonObject(keys) => Success(x in keys)
    case JsonString(text) => Success(IsSubstring(x, text))
    case JsonScalar => Failure(TypeError)
  }

  /** A string holding `x` anywhere counts as containing it; the empty address is in every string. */
  lemma ContainsInString(pre: string, x: string, post: string)
    ensures Contains(JsonString(pre + x + post), x) == Success(true)
    ensures Contains(JsonString(pre), []) == Success(true)
  {
    var t := pre + x + post;
    assert t[|pre|..] == x + post;
    assert pre[0..] == pre;
  }
}

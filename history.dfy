/**
 * The history log: every visited address is appended to the stored list, and
 * only the most recent `HistoryLimit` entries are kept (Python's
 * `history[-500:]`).
 */
module History {
  import opened Wrappers
  import opened Storage

  /** How many entries the history log keeps. */
  const HistoryLimit: nat := 500

  function Min(a: nat, b: nat): (r: nat) { if a <= b then a else b }

  /**
   * The last `n` elements of `s`, or all of `s` when it is shorter; this is
   * Python's slice `s[-n:]` for a positive `n`.
   */
  function KeepLast<T>(s: seq<T>, n: nat): (r: seq<T>)
    requires n > 0
    ensures |r| == Min(|s|, n)
    ensures r == s[|s| - |r|..]
  {
    if |s| <= n then s else s[|s| - n..]
  }

  /** The stored history after one visit to `url`. */
  function Recorded(history: seq<string>, url: string): (r: seq<string>)
    ensures 0 < |r| <= HistoryLimit
    ensures r[|r| - 1] == url
    ensures |history| < HistoryLimit ==> r == history + [url]
    ensures |history| >= HistoryLimit ==>
              |r| == HistoryLimit && r[..|r| - 1] == history[|history| - (HistoryLimit - 1)..]
  {
    KeepLast(history + [url], HistoryLimit)
  }

  /**
   * One visit applied to the value loaded from the history file: `append`
   * works only on a list; on any other JSON value it raises AttributeError
   * before anything is written.
   */
  function RecordInto(v: JsonValue, url: string): (r: Result<seq<string>, PyError>)
    ensures r.Success? <==> v.JsonArray?
    ensures r.Success? ==> r.value == Recorded(v.entries, url)
    ensures r.Failure? ==> r.error == AttributeError
  {
    if v.JsonArray? then Success(Recorded(v.entries, url)) else Failure(AttributeError)
  }

  /** The stored history after visiting `urls` one after another, starting from `history`. */
  function RecordAll(history: seq<string>, urls: seq<string>): (r: seq<string>)
    decreases |urls|
  {
    if urls == [] then history else RecordAll(Recorded(history, urls[0]), urls[1..])
  }

  /** Keeping the last `n` of a long enough suffix of `v` is keeping the last `n` of `v`. */
  lemma KeepLastOfSuffix<T>(v: seq<T>, k: nat, n: nat)
    requires n > 0
    requires k <= |v|
    requires |v| - k >= Min(|v|, n)
    ensures KeepLast(v[k..], n) == KeepLast(v, n)
  {
    var m := Min(|v|, n);
    var w := v[k..];
    assert |w| == |v| - k && Min(|w|, n) == m;
    assert KeepLast(w, n) == w[|w| - m..];
    assert KeepLast(v, n) == v[|v| - m..];
    assert w[|w| - m..] == v[|v| - m..];
  }

  /** Truncating before appending more does not change what is kept afterwards. */
  lemma KeepLastAppend<T>(s: seq<T>, t: seq<T>, n: nat)
    requires n > 0
    ensures KeepLast(KeepLast(s, n) + t, n) == KeepLast(s + t, n)
  {
    var k := |s| - Min(|s|, n);
    assert KeepLast(s, n) + t == (s + t)[k..];
    KeepLastOfSuffix(s + t, k, n);
  }

  /** One visit followed by the rest of a run keeps what truncating the whole run keeps. */
  lemma KeepLastStep(history: seq<string>, urls: seq<string>)
    requires |urls| >= 2
    ensures KeepLast(KeepLast(history + [urls[0]], HistoryLimit) + urls[1..], HistoryLimit)
            == KeepLast(history + urls, HistoryLimit)
  {
    KeepLastAppend(history + [urls[0]], urls[1..], HistoryLimit);
    assert history + [urls[0]] + urls[1..] == history + urls;
  }

  /**
   * Visiting a non-empty run of addresses leaves exactly the last
   * `HistoryLimit` entries of the old history followed by those addresses,
   * in order.
   */
  lemma {:induction false} RecordAllKeepsLast(history: seq<string>, urls: seq<string>)
    requires urls != []
    ensures RecordAll(history, urls) == KeepLast(history + urls, HistoryLimit)
    decreases |urls|
  {
    var u, rest := urls[0], urls[1..];
    var once := Recorded(history, u);
    if rest == [] {
      assert urls == [u];
    } else {
      calc {
        RecordAll(history, urls);
        RecordAll(once, rest);
        { RecordAllKeepsLast(once, rest); }
        KeepLast(once + rest, HistoryLimit);
        { KeepLastStep(history, urls); }
        KeepLast(history + urls, HistoryLimit);
      }
    }
  }

  /**
   * Starting from a missing history file and visiting `urls` leaves the last
   * min(|urls|, HistoryLimit) of them, in the order they were visited.
   */
  lemma FreshHistoryKeepsLastVisits(urls: seq<string>)
    ensures RecordAll([], urls) == KeepLast(urls, HistoryLimit)
  {
    if urls != [] {
      RecordAllKeepsLast([], urls);
      assert [] + urls == urls;
    }
  }

  /**
   * The history file after a run of visits, each of which loads the file,
   * records the address and writes the file back; a visit that raises leaves
   * the file as it is.
   */
  function VisitAll(file: FileContents, urls: seq<string>): (r: FileContents)
    decreases |urls|
  {
    if urls == [] then file
    else match RecordInto(LoadOrEmpty(file), urls[0])
      case Success(list) => VisitAll(Some(JsonArray(list)), urls[1..])
      case Failure(_) => VisitAll(file, urls[1..])
  }

  /** Visits to a file that holds a list store exactly what `RecordAll` computes. */
  lemma {:induction false} VisitAllFromList(history: seq<string>, urls: seq<string>)
    ensures VisitAll(Some(JsonArray(history)), urls) == Some(JsonArray(RecordAll(history, urls)))
    decreases |urls|
  {
    if urls != [] {
      VisitAllFromList(Recorded(history, urls[0]), urls[1..]);
    }
  }

  /**
   * Starting from a missing history file, N visits leave a file holding the
   * last min(N, HistoryLimit) addresses, in visiting order.
   */
  lemma VisitAllFromMissing(urls: seq<string>)
    requires urls != []
    ensures VisitAll(None, urls) == Some(JsonArray(KeepLast(urls, HistoryLimit)))
  {
    VisitAllFromList(Recorded([], urls[0]), urls[1..]);
    FreshHistoryKeepsLastVisits(urls);
  }
}

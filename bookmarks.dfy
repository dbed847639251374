/**
 * The bookmark list: the current page's address is appended to the stored
 * list unless it is already there (a linear membership test), and the file is
 * rewritten only when something was appended.
 */
module Bookmarks {
  import opened Wrappers
  import opened Storage

  predicate NoDuplicates(s: seq<string>) {
    forall i, j :: 0 <= i < j < |s| ==> s[i] != s[j]
  }

  /** How many times `x` occurs in `s`. */
  function Occurrences(s: seq<string>, x: string): (r: nat) {
    if s == [] then 0
    else Occurrences(s[..|s| - 1], x) + (if s[|s| - 1] == x then 1 else 0)
  }

  /** The stored bookmark list after bookmarking `url`. */
  function Bookmarked(data: seq<string>, url: string): (r: seq<string>)
    ensures url in r
    ensures forall x :: x in r <==> x in data || x == url
    ensures (url in data) == (r == data)
    ensures url !in data ==> |r| == |data| + 1 && r[..|data|] == data && r[|data|] == url
  {
    if url in data then data else data + [url]
  }

  /** What one press of the Bookmark button does to the bookmark file. */
  datatype BookmarkEffect =
    | NoWrite                      // the address counts as present: nothing is written
    | Write(list: seq<string>)     // the file is rewritten with this list
    | Raise(error: PyError)        // an exception stops the action before any write

  /**
   * One bookmark action on the value loaded from the bookmark file: the
   * membership test `url not in data`, then `append` and the write. Only a
   * list can be appended to; any other value either already "contains" the
   * address (a key of an object, a substring of a string) or raises.
   */
  function BookmarkInto(v: JsonValue, url: string): (e: BookmarkEffect)
    ensures e.Write? <==> v.JsonArray? && url !in v.entries
    ensures e.Write? ==> e.list == Bookmarked(v.entries, url)
    ensures e.NoWrite? <==> Contains(v, url) == Success(true)
    ensures v.JsonArray? ==> !e.Raise?
    ensures e.Raise? && v.JsonScalar? ==> e.error == TypeError
    ensures e.Raise? && !v.JsonScalar? ==> e.error == AttributeError
  {
    match Contains(v, url)
    case Failure(error) => Raise(error)
    case Success(present) =>
      if present then NoWrite
      else if v.JsonArray? then Write(Bookmarked(v.entries, url))
      else Raise(AttributeError)
  }

  /** After a write the file holds the address, so pressing Bookmark again writes nothing. */
  lemma BookmarkIntoTwiceWritesOnce(v: JsonValue, url: string)
    requires BookmarkInto(v, url).Write?
    ensures BookmarkInto(JsonArray(BookmarkInto(v, url).list), url) == NoWrite
  {
  }

  /** The stored bookmark list after bookmarking `urls` one after another. */
  function BookmarkAll(data: seq<string>, urls: seq<string>): (r: seq<string>)
    decreases |urls|
  {
    if urls == [] then data else BookmarkAll(Bookmarked(data, urls[0]), urls[1..])
  }

  lemma {:induction false} OccurrencesAbsent(s: seq<string>, x: string)
    requires x !in s
    ensures Occurrences(s, x) == 0
    decreases |s|
  {
    if s != [] {
      OccurrencesAbsent(s[..|s| - 1], x);
    }
  }

  lemma {:induction false} OccurrencesPresent(s: seq<string>, x: string)
    requires x in s
    ensures Occurrences(s, x) >= 1
    decreases |s|
  {
    if s[|s| - 1] != x {
      assert x in s[..|s| - 1];
      OccurrencesPresent(s[..|s| - 1], x);
    }
  }

  /** A duplicate-free list stays duplicate-free. */
  lemma BookmarkedKeepsNoDuplicates(data: seq<string>, url: string)
    requires NoDuplicates(data)
    ensures NoDuplicates(Bookmarked(data, url))
  {
  }

  /** Bookmarking the same address twice has the effect of bookmarking it once. */
  lemma BookmarkedIdempotent(data: seq<string>, url: string)
    ensures Bookmarked(Bookmarked(data, url), url) == Bookmarked(data, url)
  {
  }

  /**
   * Bookmarking an address twice, starting from a list that holds it at most
   * once, leaves it in the list exactly once.
   */
  lemma BookmarkTwiceOccursOnce(data: seq<string>, url: string)
    requires Occurrences(data, url) <= 1
    ensures Occurrences(Bookmarked(Bookmarked(data, url), url), url) == 1
  {
    BookmarkedIdempotent(data, url);
    if url in data {
      OccurrencesPresent(data, url);
    } else {
      OccurrencesAbsent(data, url);
      var r := data + [url];
      assert r[..|r| - 1] == data;
    }
  }

  /**
   * Bookmarking a run of addresses keeps a duplicate-free list duplicate-free,
   * loses nothing and holds exactly the old entries and the new addresses.
   */
  /**
   * Whatever the starting list, a run of bookmark actions leaves exactly the
   * old entries and the new addresses.
   */
  lemma {:induction false} BookmarkAllMembers(data: seq<string>, urls: seq<string>)
    ensures forall x :: x in BookmarkAll(data, urls) <==> x in data || x in urls
    decreases |urls|
  {
    if urls != [] {
      BookmarkAllMembers(Bookmarked(data, urls[0]), urls[1..]);
      forall x ensures x in urls <==> x == urls[0] || x in urls[1..] {
        assert urls == [urls[0]] + urls[1..];
      }
    }
  }

  lemma {:induction false} BookmarkAllContents(data: seq<string>, urls: seq<string>)
    requires NoDuplicates(data)
    ensures NoDuplicates(BookmarkAll(data, urls))
    ensures forall x :: x in BookmarkAll(data, urls) <==> x in data || x in urls
    decreases |urls|
  {
    if urls != [] {
      var d1 := Bookmarked(data, urls[0]);
      BookmarkedKeepsNoDuplicates(data, urls[0]);
      BookmarkAllContents(d1, urls[1..]);
      BookmarkAllMembers(data, urls);
    }
  }
}

/**
 * The browser window's own state: the tab strip with its current tab, and the
 * contents of the history and bookmark files. Everything the window hands to
 * the engine (loading, back, forward, reload, stop) is not part of this model.
 */
module Browser {
  import opened Wrappers
  import opened Storage
  import History
  import Bookmarks
  import TabStrip

  /** The address of the home page, opened in the first tab. */
  const HomeUrl: string := "https://www.google.com"

  class BrowserState {
    /** The open tabs, in strip order; each is known by the address it was opened on. */
    var tabs: seq<string>
    /** The index of the current tab. */
    var current: nat
    /** The decoded contents of `history.json`. */
    var historyFile: FileContents
    /** The decoded contents of `bookmarks.json`. */
    var bookmarksFile: FileContents

    /** At least one tab is open, and the current index names one of them. */
    ghost predicate Valid()
      reads this
    {
      |tabs| >= 1 && current < |tabs|
    }

    /** A new window opens one tab on the home page; the two files are as found on disk. */
    constructor (history: FileContents, bookmarks: FileContents)
      ensures Valid()
      ensures tabs == [HomeUrl] && current == 0
      ensures historyFile == history && bookmarksFile == bookmarks
    {
      tabs := [];
      current := 0;
      historyFile := history;
      bookmarksFile := bookmarks;
      new;
      NewTab(HomeUrl);
    }

    /** The tab the toolbar's commands act on. */
    function Current(): (tab: string)
      reads this
      requires Valid()
      ensures tab in tabs
    {
      tabs[current]
    }

    /** Opens a tab on `url` at the end of the strip and makes it current. */
    method NewTab(url: string)
      modifies this`tabs, this`current
      ensures Valid()
      ensures tabs == TabStrip.TabsAfterOpen(old(tabs), url)
      ensures |tabs| == |old(tabs)| + 1
      ensures current == |tabs| - 1 && Current() == url
    {
      tabs := tabs + [url];
      current := |tabs| - 1;
    }

    /**
     * Closes tab `i`, unless it is the only one. Which tab is current after a
     * removal is decided by the tab widget; the model says only that it is one
     * of the remaining tabs.
     */
    method CloseTab(i: nat)
      requires Valid()
      requires i < |tabs|
      modifies this`tabs, this`current
      ensures Valid()
      ensures tabs == TabStrip.TabsAfterClose(old(tabs), i)
      ensures |old(tabs)| == 1 ==> tabs == old(tabs) && current == old(current)
      ensures |old(tabs)| > 1 ==> |tabs| == |old(tabs)| - 1
    {
      if |tabs| > 1 {
        tabs := tabs[..i] + tabs[i + 1..];
        var next: nat :| next < |tabs|;
        current := next;
      }
    }

    /**
     * A visit to `url`: read the history file (an empty list if it is missing
     * or not valid JSON), append, keep the last `HistoryLimit` entries, and
     * write the file back. If the file decodes to a JSON value that is not a
     * list, `append` raises AttributeError and the file is left as it is, so
     * every later call raises the same way.
     */
    method RecordHistory(url: string) returns (error: Option<PyError>)
      modifies this`historyFile
      ensures error.None? <==> LoadOrEmpty(old(historyFile)).JsonArray?
      ensures error.None? ==>
                historyFile == Some(JsonArray(History.Recorded(LoadOrEmpty(old(historyFile)).entries, url)))
      ensures error.Some? ==> historyFile == old(historyFile) && error == Some(AttributeError)
      ensures match History.RecordInto(LoadOrEmpty(old(historyFile)), url)
              case Success(list) => historyFile == Some(JsonArray(list))
              case Failure(e) => error == Some(e)
    {
      var history := LoadOrEmpty(historyFile);
      if !history.JsonArray? {
        return Some(AttributeError);
      }
      var entries := history.entries + [url];
      entries := History.KeepLast(entries, History.HistoryLimit);
      historyFile := Some(JsonArray(entries));
      error := None;
    }

    /**
     * Bookmarks `url`, the current page's address as reported by the engine:
     * read the bookmark file (an empty list if it is missing or not valid
     * JSON) and, only if `url` is not in it, append it and write the file
     * back. A value that is not a list either already counts as containing
     * `url` or raises before anything is written.
     */
    method Bookmark(url: string) returns (error: Option<PyError>)
      modifies this`bookmarksFile
      ensures match Bookmarks.BookmarkInto(LoadOrEmpty(old(bookmarksFile)), url)
              case NoWrite => bookmarksFile == old(bookmarksFile) && error == None
              case Write(list) => bookmarksFile == Some(JsonArray(list)) && error == None
              case Raise(e) => bookmarksFile == old(bookmarksFile) && error == Some(e)
    {
      var data := LoadOrEmpty(bookmarksFile);
      var present := Contains(data, url);
      if present.Failure? {
        return Some(present.error);
      }
      if !present.value {
        if !data.JsonArray? {
          return Some(AttributeError);
        }
        bookmarksFile := Some(JsonArray(data.entries + [url]));
      }
      error := None;
    }
  }
}

# pybrowser: tab strip, history log and bookmarks

pybrowser is a tabbed desktop browser written in PyQt5. Qt WebEngine does the
loading and rendering. This project models the part of `main.py` that is the
program's own logic:

- **History log.** Every page the browser visits goes into `history.json`.
  The file is read back. A missing file, or one that is not valid JSON,
  counts as an empty list. Then the address is appended, and only the last
  500 entries are written back. A file that holds valid JSON but not a list
  makes `append` raise AttributeError, and nothing is written.
- **Bookmarks.** The Bookmark button reads `bookmarks.json` in the same way.
  It appends the current page's address only if `url not in data`, and writes
  the file only in that case. On a JSON value that is not a list, that test is
  key membership for an object and a substring test for a string, and it
  raises TypeError for a number, a boolean or null. If the address then has
  to be appended to anything but a list, `append` raises AttributeError.
- **Tab strip.** "New Tab" adds a tab at the end and makes it current. A tab
  is closed only while more than one tab is open.
- **Address bar.** Text that starts with `http` is loaded as typed. Any other
  text gets `https://` in front.
- **Search box.** The query is appended as is to
  `https://www.google.com/search?q=`.

Modules:

- `Wrappers` holds `Option`.
- `Storage` reads a file. A file is only its decoded contents: `Some` of a
  JSON value, or `None` when it is missing or cannot be decoded. Python's
  `in` on such a value is modelled there too.
- `History`, `Bookmarks`, `Addressing` and `TabStrip` hold the pure rules and
  the lemmas about them.
- `Browser` has the class `BrowserState`. Its fields are the tabs, the current
  index and the two files. Its methods change those fields in the order
  `main.py` does, and each is proved against the pure rules. `Valid()` says
  that at least one tab is open and the current index names one of them.
  Every method keeps it.

A tab is identified by the address it was opened on. The engine owns each
tab's live address. So `Bookmark` and `RecordHistory` take the page address as
a parameter, as the engine reports it.

The history keeps the last 500 entries (main.py:40). The bookmark list keeps
insertion order, because `append` adds at the end (main.py:122). Both file
operations return the Python exception they raise, if any, as an
`Option<PyError>`.

The address-bar test looks only at the four letters `http`. So a bare host
name such as `httpbin.org` is handed to the engine with no scheme
(`NormalizeAddressKeepsBareHttpHost`). The model keeps this behaviour as
written.

## Model

| member | source | states |
|---|---|---|
| `Storage.LoadOrEmpty` | main.py:35-38 | a missing or undecodable file reads as the empty list; a file holding valid JSON reads as that value, whatever its kind |
| `Storage.Contains` | main.py:121 | `url in data`: list membership for a list, key membership for an object, substring for a string, TypeError exactly for a number, boolean or null |
| `Storage.ContainsInString` | main.py:121 | a string that holds the address anywhere counts as containing it, and every string contains the empty address |
| `History.KeepLast` | main.py:40 | the slice `s[-n:]` for n ≥ 1: exactly the last min(length of s, n) elements of `s`, in order |
| `History.Recorded` | main.py:39-40 | after one visit the history is non-empty, has at most 500 entries, and ends with the visited address; below the cap it is the old history plus the address; at the cap the oldest entry is dropped and the other 499 keep their order |
| `History.RecordInto` | main.py:36-41 | a visit succeeds exactly when the loaded value is a list, and then stores the recorded history; on any other JSON value it raises AttributeError |
| `History.KeepLastAppend` | main.py:40 | truncating to the last n before appending more does not change what the next truncation keeps |
| `History.RecordAllKeepsLast` | main.py:34-41 | a run of visits leaves exactly the last 500 entries of the old history followed by the visited addresses, in order |
| `History.FreshHistoryKeepsLastVisits` | main.py:34-41 | from an empty history list, N visits leave the last min(N, 500) addresses in visiting order |
| `History.VisitAllFromList` | main.py:34-41 | a run of visits to a file that holds a list leaves the file holding exactly the list those visits record |
| `History.VisitAllFromMissing` | main.py:34-41 | from a missing history file, N visits (N at least 1) leave the file holding the last min(N, 500) addresses in visiting order |
| `Bookmarks.Bookmarked` | main.py:120-123 | the address is in the result; the result holds exactly the old entries and the address; the result equals the old list if and only if the address was already there; otherwise the address is appended at the end |
| `Bookmarks.BookmarkInto` | main.py:117-123 | the file is written exactly when the loaded value is a list without the address, and then with the address appended; nothing is written exactly when `in` finds the address; a list never raises; otherwise TypeError for a number, boolean or null and AttributeError for an object or string |
| `Bookmarks.BookmarkIntoTwiceWritesOnce` | main.py:121-123 | after a bookmark is written, bookmarking the same address again writes nothing |
| `Bookmarks.BookmarkedKeepsNoDuplicates` | main.py:121-122 | a duplicate-free bookmark list stays duplicate-free |
| `Bookmarks.BookmarkedIdempotent` | main.py:121-122 | bookmarking the same address twice has the effect of bookmarking it once |
| `Bookmarks.BookmarkTwiceOccursOnce` | main.py:121-122 | bookmarking an address twice leaves it in the list exactly once, if it was there at most once before |
| `Bookmarks.BookmarkAllMembers` | main.py:115-123 | for any starting list, a run of bookmark actions leaves exactly the old entries and the new addresses |
| `Bookmarks.BookmarkAllContents` | main.py:115-123 | a run of bookmark actions keeps a duplicate-free list duplicate-free, and the list then holds exactly the old entries and the new addresses |
| `Addressing.NormalizeAddress` | main.py:103-105 | text starting with "http" passes unchanged, other text gets "https://" in front; the result always starts with "http" and ends with the typed text |
| `Addressing.NormalizeAddressIdempotent` | main.py:104-105 | normalising an already normalised address changes nothing |
| `Addressing.NormalizeAddressKeepsBareHttpHost` | main.py:104 | "httpbin.org" gets no scheme, because only the prefix "http" is tested |
| `Addressing.SearchUrl` | main.py:112-113 | the search string starts with Google's search prefix, and the query follows it unchanged |
| `Addressing.SearchUrlRoundTrip` | main.py:113 | the query can be read back from the search string built from it |
| `Addressing.SearchUrlInjective` | main.py:113 | different queries give different search strings |
| `Addressing.SearchUrlIsNormalized` | main.py:104-105 | a search string starts with "http", so the address bar would leave it unchanged |
| `TabStrip.TabsAfterClose` | main.py:95-97 | with one tab, closing changes nothing; otherwise exactly tab i is removed and the others keep their order; at least one tab always remains |
| `TabStrip.TabsAfterOpen` | main.py:88-92 | a new tab is appended after all existing tabs, which are unchanged |
| `TabStrip.CloseKeepsOthers` | main.py:95-97 | closing never adds a tab and never loses any tab other than the closed one |
| `Browser.BrowserState.constructor` | main.py:68-69 | a new window has exactly one tab, on the home page, and it is current |
| `Browser.BrowserState.Current` | main.py:99-100 | the current tab is one of the open tabs |
| `Browser.BrowserState.NewTab` | main.py:88-92 | the tab is appended at the end and becomes current; the tab count grows by exactly one |
| `Browser.BrowserState.CloseTab` | main.py:95-97 | with one tab, nothing changes; otherwise tab i is removed, the others keep their order, and the current index names a remaining tab |
| `Browser.BrowserState.RecordHistory` | main.py:34-41 | if the loaded value is a list (the empty list when the file is missing or not JSON), the file becomes that list with the address recorded and no error is returned; otherwise AttributeError is returned and the file is unchanged |
| `Browser.BrowserState.Bookmark` | main.py:115-123 | if `in` finds the address, nothing is written; if the loaded value is a list without it, the file becomes that list with the address appended; otherwise the raised exception is returned and the file is unchanged |

## Left out

- Installing packages at startup (main.py:5-12): this is process I/O with no logic of its own.
- The window, the toolbar, its widgets and the application event loop (main.py:44-86, 132-135): this is UI only.
- Engine calls: back, forward, reload, stop, setUrl and url(). They belong to Qt WebEngine, which is not part of this model. So `navigate`, `search` and the Home button are modelled only by the address they compute, and the page address is a parameter.
- Signals: `urlChanged` becomes an explicit call of `RecordHistory`. The `titleChanged` tab-title update is UI.
- Browser.BrowserState.CloseTab: the new current tab after a removal is the tab widget's choice. The model says only that it is a remaining tab. Qt's handling of an out-of-range index is not modelled either: the caller must pass an open tab's index.
- JSON encoding and decoding, and opening and writing the files (main.py:36, 41, 117, 123): a file is only its decoded value, or None.
- Storage.JsonValue: a list is modelled as a list of strings. A list that holds numbers, null or nested values is not modelled. The source appends to it and compares against it like any other list.
- What happens to the application after an exception is raised in a Qt slot is PyQt's behaviour, and is not modelled. The model returns the exception.
- Crashes in the middle of a write and concurrent writers are not modelled.
- Escaping of the search query: the source does none, and the model does none either. QUrl's own parsing of the address belongs to the engine; two different search strings may become the same URL there.
- The download dialog (main.py:125-129): this is UI and a file dialog.
- `update_url_bar` (main.py:108-109): it only copies the engine's address into a widget.

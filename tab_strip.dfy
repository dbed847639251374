/**
 * The tab strip's rules, on the ordered list of tabs: a new tab goes at the
 * end and becomes current; a tab is removed only while more than one is open.
 */
module TabStrip {

  /** The tabs after a request to close tab `i`. */
  function TabsAfterClose<T>(tabs: seq<T>, i: nat): (r: seq<T>)
    requires i < |tabs|
    ensures |r| >= 1
    ensures |tabs| == 1 ==> r == tabs
    ensures |tabs| > 1 ==> |r| == |tabs| - 1
    ensures |tabs| > 1 ==> forall k :: 0 <= k < i ==> r[k] == tabs[k]
    ensures |tabs| > 1 ==> forall k :: i <= k < |r| ==> r[k] == tabs[k + 1]
  {
    if |tabs| > 1 then tabs[..i] + tabs[i + 1..] else tabs
  }

  /** The tabs after opening one on `url`. */
  function TabsAfterOpen<T>(tabs: seq<T>, url: T): (r: seq<T>)
    ensures |r| == |tabs| + 1
    ensures r[..|tabs|] == tabs && r[|tabs|] == url
  {
    tabs + [url]
  }

  /** Closing a tab never loses one of the others, and never adds any. */
  lemma CloseKeepsOthers<T>(tabs: seq<T>, i: nat, x: T)
    requires i < |tabs|
    ensures x in TabsAfterClose(tabs, i) ==> x in tabs
    ensures x in tabs && (|tabs| == 1 || x != tabs[i]) ==> x in TabsAfterClose(tabs, i)
  {
    if |tabs| > 1 {
      assert tabs == tabs[..i] + [tabs[i]] + tabs[i + 1..];
    }
  }
}

/**
 * The two places where the browser builds an address from typed text: the
 * address bar (`navigate`) and the search box (`search`). The resulting
 * address is handed to the engine, which is not part of this model.
 */
module Addressing {
  import opened Wrappers

  /** Python's `s.startswith(prefix)`. */
  predicate StartsWith(s: string, prefix: string) {
    |prefix| <= |s| && s[..|prefix|] == prefix
  }

  const SchemePrefix: string := "https://"
  const SearchPrefix: string := "https://www.google.com/search?q="

  /**
   * The address bar: text that already starts with "http" is used as it is;
   * anything else gets "https://" in front.
   */
  function NormalizeAddress(text: string): (url: string)
    ensures StartsWith(text, "http") ==> url == text
    ensures !StartsWith(text, "http") ==> url == SchemePrefix + text
    ensures StartsWith(url, "http")
    ensures |text| <= |url| && url[|url| - |text|..] == text
  {
    if StartsWith(text, "http") then text else SchemePrefix + text
  }

  /** Normalising an address that was already normalised changes nothing. */
  lemma NormalizeAddressIdempotent(text: string)
    ensures NormalizeAddress(NormalizeAddress(text)) == NormalizeAddress(text)
  {
  }

  /**
   * The test is only on the four letters "http": a bare host name that begins
   * with them gets no scheme.
   */
  lemma NormalizeAddressKeepsBareHttpHost()
    ensures NormalizeAddress("httpbin.org") == "httpbin.org"
  {
    assert StartsWith("httpbin.org", "http");
  }

  /**
   * The search box: the query is appended to Google's search address as it
   * is, with no escaping.
   */
  function SearchUrl(query: string): (url: string)
    ensures StartsWith(url, SearchPrefix)
    ensures url[|SearchPrefix|..] == query
  {
    SearchPrefix + query
  }

  /** The query carried by a search string, if it is one. */
  function SearchQuery(url: string): (query: Option<string>)
    ensures query.Some? <==> StartsWith(url, SearchPrefix)
    ensures query.Some? ==> url == SearchPrefix + query.value
  {
    if StartsWith(url, SearchPrefix) then Some(url[|SearchPrefix|..]) else None
  }

  /** The query can be read back from the search string built from it. */
  lemma SearchUrlRoundTrip(query: string)
    ensures SearchQuery(SearchUrl(query)) == Some(query)
  {
  }

  /** Two different queries never give the same search string. */
  lemma SearchUrlInjective(a: string, b: string)
    requires SearchUrl(a) == SearchUrl(b)
    ensures a == b
  {
    SearchUrlRoundTrip(a);
    SearchUrlRoundTrip(b);
  }

  /** A search string would pass through the address bar unchanged. */
  lemma SearchUrlIsNormalized(query: string)
    ensures NormalizeAddress(SearchUrl(query)) == SearchUrl(query)
  {
    assert SearchUrl(query)[..4] == "http";
  }
}

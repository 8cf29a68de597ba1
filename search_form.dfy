/**
 * The search form (src/components/Search.jsx): submitting it suppresses the
 * browser's default submission and, for a term that is not blank, navigates
 * to the vehicles page with the term as typed in the `query` parameter.
 */
module SearchForm {
  import opened Wrappers
  import opened Text

  /** The route the form navigates to, up to the term. */
  const Route := "/vehicles?query="

  /** What one submission does: whether the default action was prevented and
      the URL pushed onto the router, if any. */
  datatype Submission = Submission(defaultPrevented: bool, navigation: Option<string>)

  /** `handleSearch` for the current `searchTerm`. */
  function HandleSearch(searchTerm: string): (r: Submission)
    ensures r.defaultPrevented
    ensures r.navigation.None? <==> IsBlank(searchTerm)
    ensures r.navigation.Some? ==> Route <= r.navigation.value && r.navigation.value[|Route|..] == searchTerm
  {
    Submission(true, if Trim(searchTerm) != [] then Some(Route + searchTerm) else None)
  }

  /** The pushed URL carries the raw term: the same URL for two terms only if
      they are the same term, including surrounding whitespace. */
  lemma NavigationInjective(a: string, b: string, url: string)
    requires HandleSearch(a).navigation == Some(url)
    requires HandleSearch(b).navigation == Some(url)
    ensures a == b
  {
    assert url[|Route|..] == a && url[|Route|..] == b;
  }
}

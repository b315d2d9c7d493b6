/** `SearchBar`: the controlled input and its submit guard. */
module SearchBar {
  import opened Wrappers
  import opened Text

  /** The text currently in the input box. */
  datatype SearchBarState = SearchBarState(query: string)

  /** The input after a submit, and the argument `onSearch` was called with, if it was called. */
  datatype Submitted = Submitted(state: SearchBarState, searched: Option<string>)

  /**
   `handleSubmit`: calls `onSearch` with the trimmed query and clears the input, but only
   when the trimmed query is non-empty; otherwise nothing happens.
   */
  function HandleSubmit(s: SearchBarState): (r: Submitted)
    ensures r.searched.Some? <==> !AllSpace(s.query)
    ensures r.searched.Some? ==> r.searched.value == Trim(s.query)
    ensures r.searched.Some? ==> r.searched.value != "" && NoOuterSpace(r.searched.value)
    ensures r.searched.Some? ==> r.state.query == ""
    ensures r.searched.None? ==> r.state == s
  {
    var q := Trim(s.query);
    if q != "" then Submitted(SearchBarState(""), Some(q)) else Submitted(s, None)
  }

  /** The search term is exactly the text between the surrounding whitespace. */
  lemma SubmitSearchesCore(a: string, m: string, b: string)
    requires AllSpace(a) && AllSpace(b) && NoOuterSpace(m) && m != ""
    ensures HandleSubmit(SearchBarState(a + m + b)) == Submitted(SearchBarState(""), Some(m))
  {
    TrimExact(a, m, b);
  }

  /** Submitting again right after a search does nothing: the input was cleared. */
  lemma ResubmitAfterSearchIsInert(s: SearchBarState)
    requires HandleSubmit(s).searched.Some?
    ensures HandleSubmit(HandleSubmit(s).state) == Submitted(SearchBarState(""), None)
  {
  }
}

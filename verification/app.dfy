/**
 The state transitions of the `App` component: loading the type list, fetching one entry
 by name or number, and filtering by type. Every remote read is an input: a function from
 the request's key to its outcome. Each transition also reports the requests it issued.
 */
module App {
  import opened Wrappers
  import opened Text
  import opened Pokemon
  import opened SearchBar

  /** A `{name, url}` item of a catalog listing. */
  datatype NamedResource = NamedResource(name: string, url: string)

  /** The outcome of one remote read. */
  datatype Fetch<T> = Fetched(value: T) | FetchFailed

  /** A remote read the component issues. */
  datatype Request =
    | TypeListRequest
    | PokemonRequest(key: string)
    | TypeRequest(typeName: string)
    | DetailRequest(url: string)

  /** The component's state variables. */
  datatype AppState = AppState(
    pokemon: Option<Entry>,
    error: string,
    types: seq<NamedResource>,
    filtered: seq<Entry>,
    loading: bool)

  /** A transition's final state and the requests issued on the way, in order. */
  datatype Step = Step(state: AppState, requests: seq<Request>)

  const TypesError: string := "Failed to load Pok\U{E9}mon types. Please refresh the page."
  const NotFoundError: string := "Pok\U{E9}mon not found. Please check the name or ID."
  const TypeFilterError: string := "Error fetching Pok\U{E9}mon by type. Please try again."

  /** The number of type members whose details are fetched. */
  const GridSize: nat := 24

  /** The type names dropped from the filter list. */
  predicate IsValidType(t: NamedResource) {
    t.name != "unknown" && t.name != "shadow"
  }

  /** The listed types without "unknown" and "shadow", in their original order. */
  function ValidTypes(ts: seq<NamedResource>): (r: seq<NamedResource>)
    ensures |r| <= |ts|
    ensures forall i :: 0 <= i < |r| ==> r[i].name != "unknown" && r[i].name != "shadow"
    ensures forall t :: t in r <==> t in ts && IsValidType(t)
  {
    if ts == [] then []
    else if IsValidType(ts[0]) then [ts[0]] + ValidTypes(ts[1..])
    else ValidTypes(ts[1..])
  }

  /** Filtering works piecewise, so the kept types keep their relative order. */
  lemma {:induction false} ValidTypesConcat(a: seq<NamedResource>, b: seq<NamedResource>)
    ensures ValidTypes(a + b) == ValidTypes(a) + ValidTypes(b)
  {
    if a == [] {
      assert a + b == b;
    } else {
      assert (a + b)[1..] == a[1..] + b;
      ValidTypesConcat(a[1..], b);
    }
  }

  /** A list with no sentinel types comes through unchanged. */
  lemma {:induction false} ValidTypesKeepsValid(ts: seq<NamedResource>)
    requires forall i :: 0 <= i < |ts| ==> IsValidType(ts[i])
    ensures ValidTypes(ts) == ts
  {
    if ts != [] {
      ValidTypesKeepsValid(ts[1..]);
    }
  }

  /** The mount effect: load the type list for the filter dropdown. */
  function LoadTypes(s: AppState, reply: Fetch<seq<NamedResource>>): (r: Step)
    ensures r.requests == [TypeListRequest]
    ensures r.state.pokemon == s.pokemon && r.state.filtered == s.filtered && r.state.loading == s.loading
    ensures reply.Fetched? ==> r.state.error == s.error && r.state.types == ValidTypes(reply.value)
    ensures reply.Fetched? ==> forall t :: t in r.state.types <==> t in reply.value && IsValidType(t)
    ensures reply.FetchFailed? ==> r.state.types == s.types && r.state.error == TypesError
  {
    match reply
    case Fetched(ts) => Step(s.(types := ValidTypes(ts)), [TypeListRequest])
    case FetchFailed => Step(s.(error := TypesError), [TypeListRequest])
  }

  /** The state both handlers set before their first await: loading, no error, nothing shown. */
  function Begin(s: AppState): (r: AppState)
    ensures r.loading && r.error == "" && r.pokemon.None? && r.filtered == []
    ensures r.types == s.types
  {
    s.(loading := true, error := "", filtered := [], pokemon := None)
  }

  /** `fetchPokemon(query)`: look the entry up under the lowercased query. */
  function FetchPokemon(s: AppState, query: string, lookup: string -> Fetch<Entry>): (r: Step)
    ensures r.requests == [PokemonRequest(Lower(query))]
    ensures !r.state.loading && r.state.filtered == [] && r.state.types == s.types
    ensures lookup(Lower(query)).Fetched? ==>
      r.state.pokemon == Some(lookup(Lower(query)).value) && r.state.error == ""
    ensures lookup(Lower(query)).FetchFailed? ==>
      r.state.pokemon == None && r.state.error == NotFoundError
  {
    var key := Lower(query);
    var pending := Begin(s);
    match lookup(key)
    case Fetched(e) => Step(pending.(pokemon := Some(e), loading := false), [PokemonRequest(key)])
    case FetchFailed => Step(pending.(error := NotFoundError, loading := false), [PokemonRequest(key)])
  }

  /** Queries that differ only in letter case lead to the same request and the same state. */
  lemma FetchPokemonCaseInsensitive(s: AppState, q1: string, q2: string, lookup: string -> Fetch<Entry>)
    requires CaseVariants(q1, q2)
    ensures FetchPokemon(s, q1, lookup) == FetchPokemon(s, q2, lookup)
  {
    CaseVariantsIffSameLower(q1, q2);
  }

  /** `list.slice(0, 24)`. */
  function Truncate(list: seq<NamedResource>): (r: seq<NamedResource>)
    ensures |r| == if |list| < GridSize then |list| else GridSize
    ensures r == list[..|r|]
  {
    if |list| <= GridSize then list else list[..GridSize]
  }

  /** One detail request per member, in member order. */
  function DetailRequests(members: seq<NamedResource>): (r: seq<Request>)
    ensures |r| == |members|
    ensures forall i :: 0 <= i < |members| ==> r[i] == DetailRequest(members[i].url)
  {
    if members == [] then [] else [DetailRequest(members[0].url)] + DetailRequests(members[1..])
  }

  /**
   `Promise.all` over the members' detail reads: it succeeds only when every read does,
   and then holds the results in member order, not completion order.
   */
  function JoinAll(members: seq<NamedResource>, details: string -> Fetch<Entry>): (r: Fetch<seq<Entry>>)
    ensures r.Fetched? <==> forall i :: 0 <= i < |members| ==> details(members[i].url).Fetched?
    ensures r.Fetched? ==> |r.value| == |members|
    ensures r.Fetched? ==> forall i :: 0 <= i < |members| ==> r.value[i] == details(members[i].url).value
  {
    if members == [] then Fetched([])
    else
      match details(members[0].url)
      case FetchFailed => FetchFailed
      case Fetched(e) =>
        match JoinAll(members[1..], details)
        case FetchFailed => FetchFailed
        case Fetched(es) => Fetched([e] + es)
  }

  /** `filterByType(type)`: show the details of the type's first 24 members. */
  function FilterByType(s: AppState, typeName: string, typeMembers: string -> Fetch<seq<NamedResource>>,
                        details: string -> Fetch<Entry>): (r: Step)
    ensures !r.state.loading && r.state.pokemon.None? && r.state.types == s.types
    ensures r.state.error == "" || r.state.error == TypeFilterError
    ensures r.state.error != "" ==> r.state.filtered == []
  {
    var pending := Begin(s);
    if typeName == "" then
      Step(pending.(loading := false), [])
    else
      match typeMembers(typeName)
      case FetchFailed =>
        Step(pending.(error := TypeFilterError, filtered := [], loading := false), [TypeRequest(typeName)])
      case Fetched(list) =>
        var top := Truncate(list);
        var requests := [TypeRequest(typeName)] + DetailRequests(top);
        match JoinAll(top, details)
        case FetchFailed =>
          Step(pending.(error := TypeFilterError, filtered := [], loading := false), requests)
        case Fetched(results) =>
          Step(pending.(filtered := results, loading := false), requests)
  }

  /** Choosing the placeholder option clears the view and reads nothing. */
  lemma FilterByEmptyType(s: AppState, typeMembers: string -> Fetch<seq<NamedResource>>,
                          details: string -> Fetch<Entry>)
    ensures FilterByType(s, "", typeMembers, details)
            == Step(AppState(None, "", s.types, [], false), [])
  {
  }

  /** The details read are those of a prefix of the member list, of length min(n, 24), in order. */
  lemma FilterByTypeReadsPrefix(s: AppState, typeName: string, typeMembers: string -> Fetch<seq<NamedResource>>,
                                details: string -> Fetch<Entry>)
    requires typeName != "" && typeMembers(typeName).Fetched?
    ensures var list := typeMembers(typeName).value;
            var n := if |list| < GridSize then |list| else GridSize;
            var r := FilterByType(s, typeName, typeMembers, details).requests;
            && |r| == n + 1 && r[0] == TypeRequest(typeName)
            && forall i :: 0 <= i < n ==> r[i + 1] == DetailRequest(list[i].url)
  {
  }

  /**
   When every read succeeds, the grid holds one entry per member of the prefix, in member
   order; when the type read or any detail read fails, the grid is empty and the error is set.
   */
  lemma FilterByTypeResults(s: AppState, typeName: string, typeMembers: string -> Fetch<seq<NamedResource>>,
                            details: string -> Fetch<Entry>)
    requires typeName != ""
    ensures var r := FilterByType(s, typeName, typeMembers, details).state;
            typeMembers(typeName).FetchFailed? ==> r.filtered == [] && r.error == TypeFilterError
    ensures typeMembers(typeName).Fetched? ==>
            var top := Truncate(typeMembers(typeName).value);
            var r := FilterByType(s, typeName, typeMembers, details).state;
            if forall i :: 0 <= i < |top| ==> details(top[i].url).Fetched? then
              && r.error == ""
              && |r.filtered| == |top|
              && forall i :: 0 <= i < |top| ==> r.filtered[i] == details(top[i].url).value
            else
              r.filtered == [] && r.error == TypeFilterError
  {
  }

  /** What the page body shows. */
  datatype Body = Grid(entries: seq<Entry>) | Single(entry: Entry) | Hint | Blank

  /** The rendered page: the loading line, the error line, and the body. */
  datatype Screen = Screen(loadingShown: bool, errorShown: Option<string>, body: Body)

  /** The render: a non-empty grid wins over a single entry, which wins over the hint. */
  function Render(s: AppState): (r: Screen)
    ensures r.loadingShown == s.loading
    ensures r.errorShown.Some? <==> s.error != ""
    ensures r.errorShown.Some? ==> r.errorShown.value == s.error
    ensures r.body.Grid? ==> r.body.entries == s.filtered
    ensures r.body.Single? ==> s.pokemon == Some(r.body.entry)
    ensures r.body.Grid? <==> s.filtered != []
    ensures r.body.Single? <==> s.filtered == [] && s.pokemon.Some?
    ensures r.body.Hint? <==> s.filtered == [] && s.pokemon.None? && !s.loading && s.error == ""
  {
    var body :=
      if |s.filtered| > 0 then Grid(s.filtered)
      else if s.pokemon.Some? then Single(s.pokemon.value)
      else if !s.loading && s.error == "" then Hint
      else Blank;
    Screen(s.loading, if s.error != "" then Some(s.error) else None, body)
  }

  /**
   A successful lookup selects the single-entry branch of the page for that entry, with
   neither the loading line nor an error. Whether the card inside it draws is a separate
   matter: `Card.RenderCardAsWritten` throws there, since no region map is passed.
   */
  lemma FoundEntrySelectsSingle(s: AppState, query: string, lookup: string -> Fetch<Entry>)
    requires lookup(Lower(query)).Fetched?
    ensures Render(FetchPokemon(s, query, lookup).state)
            == Screen(false, None, Single(lookup(Lower(query)).value))
  {
  }

  /**
   A submitted search reaches the catalog under the lowercased trimmed input, which is
   never empty and has no surrounding whitespace; a blank input issues no request.
   */
  lemma {:induction false} SearchRequestKey(bar: SearchBarState, s: AppState, lookup: string -> Fetch<Entry>)
    ensures HandleSubmit(bar).searched.None? <==> AllSpace(bar.query)
    ensures HandleSubmit(bar).searched.Some? ==>
            var key := Lower(Trim(bar.query));
            && FetchPokemon(s, HandleSubmit(bar).searched.value, lookup).requests == [PokemonRequest(key)]
            && key != "" && NoOuterSpace(key)
            && key == Trim(Lower(bar.query))
  {
    TrimLowerCommute(bar.query);
    var q := Trim(bar.query);
    if q != "" {
      LowerKeepsNoOuterSpace(q);
    }
  }
}

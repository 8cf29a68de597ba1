/**
 * The older vehicles component (src/components/Vehicles.jsx). It fetches
 * every vehicle on mount and, on a submitted non-empty query, filters on vin
 * and plates with the query exactly as typed. A failed fetch leaves the list
 * as it was; a successful one stores `data` as it comes, even null.
 */
module VehiclesComponent {
  import opened Wrappers
  import opened Text
  import opened Filters
  import opened Store
  import VehiclesPage

  const Table := "vehicles"
  /** `select("*")`: every column. */
  const AllColumns := "*"

  /** Substring match on vin or plates. */
  function QueryClauses(query: string): (r: seq<Clause>)
    ensures |r| == 2 && r[0].field == Vin && r[1].field == Plates
    ensures forall k :: 0 <= k < |r| ==> r[k].ILike? && r[k].term == query
  {
    [ILike(Vin, query), ILike(Plates, query)]
  }

  /** The query `fetchVehicles(query)` issues: every vehicle, with one OR
      filter exactly when the query is a non-empty string. */
  function FetchQuery(query: string): (r: Query)
    ensures r.table == Table && r.columns == AllColumns
    ensures r.orFilters == [] <==> query == []
    ensures |r.orFilters| <= 1
  {
    var request := Select(Table, AllColumns);
    if query != [] then request.Or(Render(QueryClauses(query))) else request
  }

  /** The list after an outcome: the answer's `data` as it is (None standing
      for null), the previous list after an error or a rejection. */
  function Settle(previous: Option<seq<Vehicle>>, o: Outcome): (r: Option<seq<Vehicle>>)
    ensures o.Answered? ==> r == o.data
    ensures !o.Answered? ==> r == previous
  {
    match o
    case Answered(data) => data
    case _ => previous
  }

  /** The empty query applies no filter: all columns of all vehicles. */
  lemma EmptyQueryFetchesAll()
    ensures FetchQuery("") == Select(Table, AllColumns)
    ensures FetchQuery("").orFilters == []
  {
  }

  /** A non-empty query gives exactly `vin.ilike.%q%,plates.ilike.%q%`, with
      the query untrimmed. */
  lemma QueryFilter(query: string)
    requires query != []
    ensures FetchQuery(query).orFilters
      == ["vin.ilike.%" + query + "%" + "," + "plates.ilike.%" + query + "%"]
  {
    RenderCons(ILike(Plates, query), []);
    RenderCons(ILike(Vin, query), [ILike(Plates, query)]);
    assert [ILike(Vin, query)] + [ILike(Plates, query)] == QueryClauses(query);
    VehiclesPage.ClauseTexts(query, 0);
    var filter := Render(QueryClauses(query));
    assert filter == RenderClause(ILike(Vin, query)) + "," + RenderClause(ILike(Plates, query));
    assert FetchQuery(query).orFilters == [filter];
    var vin := "vin.ilike.%" + query + "%";
    assert filter == vin + "," + ("plates.ilike.%" + query + "%");
    assert vin + "," + ("plates.ilike.%" + query + "%") == vin + "," + "plates.ilike.%" + query + "%";
  }

  /** A query of whitespace only is still filtered on here, while the page
      issues no query at all for it. */
  lemma BlankQueryStillFiltered(query: string)
    requires query != [] && IsBlank(query)
    ensures |FetchQuery(query).orFilters| == 1
    ensures VehiclesPage.SearchQuery(query).None?
  {
  }

  /** The component's state: the `vehicles` list (None when it was set to
      null) and the text of the search input. */
  class Component {
    var vehicles: Option<seq<Vehicle>>
    var searchTerm: string

    /** `useState([])` and `useState("")`. */
    constructor ()
      ensures vehicles == Some([]) && searchTerm == ""
    {
      vehicles := Some([]);
      searchTerm := "";
    }

    /** The input's `onChange`: the term becomes the typed value. */
    method SetSearchTerm(value: string)
      modifies this`searchTerm
      ensures searchTerm == value
    {
      searchTerm := value;
    }

    /** `fetchVehicles(query)`: `store` stands for the data store, answering
        the query it is given; `issued` is the query sent to it. Only the list
        can change, and only on an answer. */
    method FetchVehicles(query: string, store: Query -> Outcome) returns (issued: Query)
      modifies this`vehicles
      ensures issued == FetchQuery(query)
      ensures vehicles == Settle(old(vehicles), store(issued))
    {
      var request := Select(Table, AllColumns);
      if query != [] {
        request := request.Or(Render([ILike(Vin, query), ILike(Plates, query)]));
      }
      issued := request;
      var outcome := store(request);
      match outcome {
        case Errored =>
        case Threw =>
        case Answered(data) =>
          vehicles := data;
      }
    }

    /** The mount effect: one unfiltered fetch. */
    method Mount(store: Query -> Outcome) returns (issued: Query)
      modifies this`vehicles
      ensures issued == Select(Table, AllColumns)
      ensures vehicles == Settle(old(vehicles), store(issued))
    {
      issued := FetchVehicles("", store);
    }

    /** Submitting the form: the default submission is suppressed and the
        current term is fetched as typed. */
    method HandleSearch(store: Query -> Outcome) returns (defaultPrevented: bool, issued: Query)
      modifies this`vehicles
      ensures defaultPrevented
      ensures issued == FetchQuery(searchTerm)
      ensures vehicles == Settle(old(vehicles), store(issued))
    {
      defaultPrevented := true;
      issued := FetchVehicles(searchTerm, store);
    }
  }
}

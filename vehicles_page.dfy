/**
 * The vehicles page (src/pages/index.js). When the route's `query`
 * parameter is truthy it fetches: it trims the term, issues no query for a
 * blank one, otherwise filters with an OR of `eq` clauses on id and year
 * (numeric terms only) and `ilike` clauses on vin, model, make and plates,
 * and stores the rows it gets back, or [] on any failure.
 */
module VehiclesPage {
  import opened Wrappers
  import opened Text
  import opened Numbers
  import opened Filters
  import opened Store

  const Table := "vehicles"
  /** The projection the page selects. */
  const Columns := "id, vin, model, make, year, plates"

  /** Substring match on the four text columns, in the page's order. */
  function TextClauses(term: string): seq<Clause> {
    [ILike(Vin, term), ILike(Model, term), ILike(Make, term), ILike(Plates, term)]
  }

  /** The clauses for a trimmed term: the four text clauses, preceded for a
      numeric term by `eq` clauses on id and year. Every `ilike` clause
      carries the trimmed term and every `eq` clause its numeric value. */
  function SearchClauses(clean: string): (r: seq<Clause>)
    ensures |r| == (if ParseNumber(clean).Some? then 6 else 4)
    ensures r[|r| - 4..] == TextClauses(clean)
    ensures forall k :: 0 <= k < |r| ==>
      (r[k].ILike? ==> r[k].term == clean) && (r[k].Eq? ==> r[k].field in {Id, Year} && ParseNumber(clean) == Some(r[k].value))
  {
    match ParseNumber(clean)
    case Some(n) => [Eq(Id, n), Eq(Year, n)] + TextClauses(clean)
    case None => TextClauses(clean)
  }

  /** The query a fetch for `searchTerm` issues, or None when it issues none:
      none exactly for a blank term, otherwise one OR filter on the page's
      projection of `vehicles`. */
  function SearchQuery(searchTerm: string): (r: Option<Query>)
    ensures r.None? <==> IsBlank(searchTerm)
    ensures r.Some? ==> r.value.table == Table && r.value.columns == Columns && |r.value.orFilters| == 1
  {
    var clean := Trim(searchTerm);
    if clean == [] then None
    else Some(Select(Table, Columns).Or(Render(SearchClauses(clean))))
  }

  /** The rows the page shows after an outcome: the data of a successful
      answer, [] for an error, a rejection or null data. */
  function PageRows(o: Outcome): (r: seq<Vehicle>)
    ensures r != [] ==> o == Answered(Some(r))
    ensures o.Answered? && o.data.Some? ==> r == o.data.value
  {
    match o
    case Answered(Some(rows)) => rows
    case _ => []
  }

  lemma TextClausesJoined(t: string)
    ensures Render(TextClauses(t)) == RenderClause(ILike(Vin, t)) + "," + RenderClause(ILike(Model, t)) + ","
      + RenderClause(ILike(Make, t)) + "," + RenderClause(ILike(Plates, t))
  {
    var vin, model, make, plates := ILike(Vin, t), ILike(Model, t), ILike(Make, t), ILike(Plates, t);
    RenderCons(plates, []);
    RenderCons(make, [plates]);
    RenderCons(model, [make, plates]);
    RenderCons(vin, [model, make, plates]);
    assert [vin] + [model, make, plates] == TextClauses(t);
    assert [model] + [make, plates] == [model, make, plates];
    assert [make] + [plates] == [make, plates];
    var a, b, c, d := RenderClause(vin), RenderClause(model), RenderClause(make), RenderClause(plates);
    assert a + "," + (b + "," + (c + "," + d)) == a + "," + b + "," + c + "," + d;
  }

  /** Each clause the page builds, written out. */
  lemma ClauseTexts(t: string, n: int)
    ensures RenderClause(Eq(Id, n)) == "id.eq." + IntToString(n)
    ensures RenderClause(Eq(Year, n)) == "year.eq." + IntToString(n)
    ensures RenderClause(ILike(Vin, t)) == "vin.ilike.%" + t + "%"
    ensures RenderClause(ILike(Model, t)) == "model.ilike.%" + t + "%"
    ensures RenderClause(ILike(Make, t)) == "make.ilike.%" + t + "%"
    ensures RenderClause(ILike(Plates, t)) == "plates.ilike.%" + t + "%"
  {
    assert "id" + ".eq." == "id.eq.";
    assert "year" + ".eq." == "year.eq.";
    assert "vin" + ".ilike.%" == "vin.ilike.%";
    assert "model" + ".ilike.%" == "model.ilike.%";
    assert "make" + ".ilike.%" == "make.ilike.%";
    assert "plates" + ".ilike.%" == "plates.ilike.%";
  }

  /** The text clauses render as the four `ilike` clauses in the page's order. */
  lemma TextRendering(t: string)
    ensures Render(TextClauses(t))
      == "vin.ilike.%" + t + "%" + "," + "model.ilike.%" + t + "%" + ","
         + "make.ilike.%" + t + "%" + "," + "plates.ilike.%" + t + "%"
  {
    TextClausesJoined(t);
    ClauseTexts(t, 0);
  }

  /** For a numeric term the filter is six clauses: id and year equal to the
      number, then vin, model, make and plates containing the trimmed text. */
  lemma NumericFilter(searchTerm: string, n: int)
    requires !IsBlank(searchTerm) && ParseNumber(Trim(searchTerm)) == Some(n)
    ensures var t := Trim(searchTerm); var v := IntToString(n);
      SearchQuery(searchTerm).value.orFilters
        == ["id.eq." + v + "," + "year.eq." + v + ","
            + ("vin.ilike.%" + t + "%" + "," + "model.ilike.%" + t + "%" + ","
               + "make.ilike.%" + t + "%" + "," + "plates.ilike.%" + t + "%")]
  {
    var t := Trim(searchTerm);
    assert SearchQuery(searchTerm).value.orFilters == [Render(SearchClauses(t))];
    NumericExtendsText(t, n);
    EqClausesRendering(n);
    TextRendering(t);
  }

  /** For a non-numeric term the filter is four clauses, vin, model, make and
      plates containing the trimmed text, and no id or year clause. */
  lemma TextFilter(searchTerm: string)
    requires !IsBlank(searchTerm) && ParseNumber(Trim(searchTerm)).None?
    ensures var t := Trim(searchTerm);
      SearchQuery(searchTerm).value.orFilters
        == ["vin.ilike.%" + t + "%" + "," + "model.ilike.%" + t + "%" + ","
            + "make.ilike.%" + t + "%" + "," + "plates.ilike.%" + t + "%"]
  {
    TextRendering(Trim(searchTerm));
  }

  /** The two `eq` clauses of a numeric term, written out. */
  lemma EqClausesRendering(n: int)
    ensures Render([Eq(Id, n), Eq(Year, n)]) == "id.eq." + IntToString(n) + "," + "year.eq." + IntToString(n)
  {
    RenderCons(Eq(Year, n), []);
    RenderCons(Eq(Id, n), [Eq(Year, n)]);
    assert [Eq(Id, n)] + [Eq(Year, n)] == [Eq(Id, n), Eq(Year, n)];
    ClauseTexts([], n);
  }

  /** The numeric filter is the non-numeric filter for the same term with the
      two `eq` clauses put in front. */
  lemma NumericExtendsText(clean: string, n: int)
    requires ParseNumber(clean) == Some(n)
    ensures Render(SearchClauses(clean))
      == Render([Eq(Id, n), Eq(Year, n)]) + "," + Render(TextClauses(clean))
  {
    var eqs, text := [Eq(Id, n), Eq(Year, n)], TextClauses(clean);
    assert SearchClauses(clean) == eqs + text;
    RenderAllAppend(eqs, text);
    JoinAppend(",", RenderAll(eqs), RenderAll(text));
  }

  /** For a term of digits, the `eq` clauses carry the number's rendering,
      the digits without their leading zeros, while the `ilike` clauses carry
      the digits as typed: "007" gives `id.eq.7` next to `vin.ilike.%007%`. */
  lemma DigitTermFilter(searchTerm: string)
    requires !IsBlank(searchTerm) && AllDigits(Trim(searchTerm))
    ensures var t := Trim(searchTerm); var v := StripZeros(t);
      SearchQuery(searchTerm).value.orFilters
        == ["id.eq." + v + "," + "year.eq." + v + ","
            + ("vin.ilike.%" + t + "%" + "," + "model.ilike.%" + t + "%" + ","
               + "make.ilike.%" + t + "%" + "," + "plates.ilike.%" + t + "%")]
  {
    var t := Trim(searchTerm);
    DigitsRendering(t);
    NumericFilter(searchTerm, DigitsValue(t));
  }

  /** Each of the page's clauses carries the term once: every comma in it shows up once per clause. */
  lemma ClausesTermCommas(t: string)
    ensures AllTermCommas(SearchClauses(t)) == 4 * Occurrences(t, ',')
  {
    var text := TextClauses(t);
    var k := Occurrences(t, ',');
    assert text[1..][1..][1..][1..] == [];
    assert AllTermCommas(text[1..][1..][1..]) == k;
    assert AllTermCommas(text[1..][1..]) == 2 * k;
    assert AllTermCommas(text) == 4 * k;
    if ParseNumber(t).Some? {
      var cs := SearchClauses(t);
      assert cs[1..][1..] == text;
    }
  }

  /** Splitting the filter on "," yields one piece per clause plus four more
      per comma in the trimmed term: the term is not escaped. */
  lemma SplitFilterLength(searchTerm: string)
    requires !IsBlank(searchTerm)
    ensures var t := Trim(searchTerm);
      |Split(SearchQuery(searchTerm).value.orFilters[0], ',')|
        == |SearchClauses(t)| + 4 * Occurrences(t, ',')
  {
    var t := Trim(searchTerm);
    SplitRenderLength(SearchClauses(t));
    ClausesTermCommas(t);
  }

  /** For a term without a comma, splitting the filter on "," gives back
      exactly the rendered clauses, and reading it back gives the clauses. */
  lemma SplitFilter(searchTerm: string)
    requires !IsBlank(searchTerm) && ',' !in Trim(searchTerm)
    ensures var cs := SearchClauses(Trim(searchTerm));
      var filter := SearchQuery(searchTerm).value.orFilters[0];
      Split(filter, ',') == RenderAll(cs) && ParseFilter(filter) == Some(cs)
  {
    var t := Trim(searchTerm);
    var cs := SearchClauses(t);
    assert CommaFree(cs);
    assert SearchQuery(searchTerm).value.orFilters[0] == Render(cs);
    SplitRender(cs);
    FilterRoundTrip(cs);
  }

  /** The route parameter `query`: missing, given once, or repeated (an array). */
  datatype RouteParam = Absent | Single(text: string) | Many(values: seq<string>)

  /** JavaScript truthiness of the parameter: a non-empty string or any array. */
  function Truthy(p: RouteParam): (truthy: bool)
    ensures !truthy <==> p == Absent || p == Single("")
  {
    match p
    case Absent => false
    case Single(text) => text != []
    case Many(_) => true
  }

  /** The component's state: the `vehicles` list it renders. */
  class Page {
    var vehicles: seq<Vehicle>

    /** `useState([])`. */
    constructor ()
      ensures vehicles == []
    {
      vehicles := [];
    }

    /** The query-building part of `fetchVehicles` for a trimmed term: the
        base query, then one `.or` with the filter for the term's kind. */
    static method BuildQuery(clean: string) returns (query: Query)
      ensures query == Select(Table, Columns).Or(Render(SearchClauses(clean)))
    {
      var numericValue := ParseNumber(clean);
      query := Select(Table, Columns);
      if numericValue.Some? {
        var n := numericValue.value;
        var clauses := [Eq(Id, n), Eq(Year, n), ILike(Vin, clean), ILike(Model, clean),
                        ILike(Make, clean), ILike(Plates, clean)];
        assert clauses == SearchClauses(clean);
        query := query.Or(Render(clauses));
      } else {
        var clauses := [ILike(Vin, clean), ILike(Model, clean), ILike(Make, clean), ILike(Plates, clean)];
        assert clauses == SearchClauses(clean);
        query := query.Or(Render(clauses));
      }
    }

    /** `fetchVehicles(searchTerm)`: `store` stands for the data store,
        answering the query it is given; `issued` is the query sent to it. */
    method FetchVehicles(searchTerm: string, store: Query -> Outcome) returns (issued: Option<Query>)
      modifies this
      ensures issued == SearchQuery(searchTerm)
      ensures vehicles == if issued.Some? then PageRows(store(issued.value)) else []
    {
      var clean := Trim(searchTerm);
      if clean == [] {
        vehicles := [];
        return None;
      }
      var query := BuildQuery(clean);
      assert SearchQuery(searchTerm) == Some(query);
      issued := Some(query);
      var outcome := store(query);
      match outcome {
        case Errored =>
          vehicles := [];
          assert PageRows(outcome) == [];
        case Threw =>
          vehicles := [];
          assert PageRows(outcome) == [];
        case Answered(data) =>
          vehicles := if data.Some? then data.value else [];
          assert PageRows(outcome) == vehicles;
      }
    }

    /** The effect run when the route parameter changes: a fetch only for a
        truthy parameter. An array parameter has no `trim`, so the call throws
        inside the fetch's `try` and the list is cleared without a query. */
    method OnSearchParam(param: RouteParam, store: Query -> Outcome) returns (issued: Option<Query>)
      modifies this
      ensures !Truthy(param) ==> issued == None && vehicles == old(vehicles)
      ensures param.Single? && Truthy(param) ==>
        issued == SearchQuery(param.text)
        && vehicles == if issued.Some? then PageRows(store(issued.value)) else []
      ensures param.Many? ==> issued == None && vehicles == []
    {
      issued := None;
      match param {
        case Absent =>
        case Single(text) =>
          if text != [] {
            issued := FetchVehicles(text, store);
          }
        case Many(_) =>
          vehicles := [];
      }
    }
  }
}

/**
 * OR-filter strings in the `field.op.value` form the search code passes to
 * `.or(...)`: clauses rendered one by one and joined by commas.
 */
module Filters {
  import opened Wrappers
  import opened Text
  import opened Numbers

  /** The columns of `vehicles` the search filters on. */
  datatype Field = Id | Year | Vin | Model | Make | Plates {
    function Column(): string {
      match this
      case Id => "id"
      case Year => "year"
      case Vin => "vin"
      case Model => "model"
      case Make => "make"
      case Plates => "plates"
    }
  }

  /** `field.eq.value` (exact match on a number) or `field.ilike.%term%`
      (case-insensitive substring). */
  datatype Clause = Eq(field: Field, value: int) | ILike(field: Field, term: string)

  /** One clause: its column and a dot first, then the operator and the
      value, a rendered number for `eq` and the term between `%` wildcards
      for `ilike`. */
  function RenderClause(c: Clause): (r: string)
    ensures c.field.Column() + "." <= r
  {
    match c
    case Eq(f, v) => f.Column() + ".eq." + IntToString(v)
    case ILike(f, t) => f.Column() + ".ilike.%" + t + "%"
  }

  function RenderAll(cs: seq<Clause>): (r: seq<string>)
    ensures |r| == |cs|
    ensures forall k :: 0 <= k < |cs| ==> r[k] == RenderClause(cs[k])
  {
    if cs == [] then [] else [RenderClause(cs[0])] + RenderAll(cs[1..])
  }

  /** The filter string: the rendered clauses joined by ",". */
  function Render(cs: seq<Clause>): (r: string)
    ensures |r| == 0 <==> |cs| == 0
  {
    Join(",", RenderAll(cs))
  }

  lemma {:induction false} RenderAllAppend(a: seq<Clause>, b: seq<Clause>)
    ensures RenderAll(a + b) == RenderAll(a) + RenderAll(b)
  {
    if a != [] {
      assert (a + b)[0] == a[0] && (a + b)[1..] == a[1..] + b;
      RenderAllAppend(a[1..], b);
      assert RenderAll(a + b) == [RenderClause(a[0])] + RenderAll(a[1..] + b);
      assert RenderAll(a) == [RenderClause(a[0])] + RenderAll(a[1..]);
    } else {
      assert a + b == b;
    }
  }

  /** A filter of several clauses is the first clause, a comma, and the filter of the rest. */
  lemma RenderCons(c: Clause, cs: seq<Clause>)
    ensures Render([c]) == RenderClause(c)
    ensures cs != [] ==> Render([c] + cs) == RenderClause(c) + "," + Render(cs)
  {
    assert RenderAll([c]) == [RenderClause(c)];
    if cs != [] {
      assert RenderAll([c] + cs) == [RenderClause(c)] + RenderAll(cs);
    }
  }

  /** The commas an ILike term adds to the rendering of its clause. */
  function TermCommas(c: Clause): nat {
    if c.ILike? then Occurrences(c.term, ',') else 0
  }

  function AllTermCommas(cs: seq<Clause>): nat {
    if cs == [] then 0 else TermCommas(cs[0]) + AllTermCommas(cs[1..])
  }

  /** Column names hold neither "." nor ",", and each names its field. */
  lemma ColumnFacts(f: Field)
    ensures '.' !in f.Column() && ',' !in f.Column()
    ensures FieldNamed(f.Column()) == Some(f)
  {
    match f
    case Id =>
    case Year =>
    case Vin =>
    case Model =>
    case Make =>
    case Plates =>
  }

  /** A rendered number is digits after an optional minus sign: no comma. */
  lemma NumberHasNoComma(v: int)
    ensures ',' !in IntToString(v)
  {
    var r := IntToString(v);
    if v < 0 {
      assert r == [r[0]] + r[1..];
    }
  }

  lemma EqCommas(f: Field, v: int)
    ensures Occurrences(RenderClause(Eq(f, v)), ',') == 0
  {
    ColumnFacts(f);
    var col, num := f.Column(), IntToString(v);
    NumberHasNoComma(v);
    OccurrencesAbsent(col, ',');
    OccurrencesAbsent(".eq.", ',');
    OccurrencesAbsent(num, ',');
    OccurrencesAppend(col, ".eq.", ',');
    OccurrencesAppend(col + ".eq.", num, ',');
    assert RenderClause(Eq(f, v)) == col + ".eq." + num;
  }

  lemma ILikeCommas(f: Field, t: string)
    ensures Occurrences(RenderClause(ILike(f, t)), ',') == Occurrences(t, ',')
  {
    ColumnFacts(f);
    var head := f.Column() + ".ilike.%";
    OccurrencesAbsent(head, ',');
    OccurrencesAbsent("%", ',');
    OccurrencesAppend(head, t, ',');
    OccurrencesAppend(head + t, "%", ',');
  }

  /** A clause's own text holds no comma; only its term can bring one. */
  lemma ClauseCommas(c: Clause)
    ensures Occurrences(RenderClause(c), ',') == TermCommas(c)
  {
    match c
    case Eq(f, v) => EqCommas(f, v);
    case ILike(f, t) => ILikeCommas(f, t);
  }

  /** The commas in a rendered filter: one between each pair of clauses, plus
      every comma inside a term. */
  lemma {:induction false} RenderCommas(cs: seq<Clause>)
    requires cs != []
    ensures Occurrences(Render(cs), ',') == |cs| - 1 + AllTermCommas(cs)
  {
    ClauseCommas(cs[0]);
    if |cs| > 1 {
      RenderCommas(cs[1..]);
      var head, tail := RenderClause(cs[0]), Render(cs[1..]);
      OccurrencesAppend(head, ",", ',');
      OccurrencesAppend(head + ",", tail, ',');
    }
  }

  /** Splitting a filter on "," yields one piece per clause plus one more per
      comma inside the terms: the pieces are the clauses exactly when no term
      holds a comma. */
  lemma SplitRenderLength(cs: seq<Clause>)
    requires cs != []
    ensures |Split(Render(cs), ',')| == |cs| + AllTermCommas(cs)
  {
    RenderCommas(cs);
    SplitLength(Render(cs), ',');
  }

  predicate CommaFree(cs: seq<Clause>) {
    forall k :: 0 <= k < |cs| ==> cs[k].ILike? ==> ',' !in cs[k].term
  }

  /** For comma-free terms, splitting the filter on "," gives back the rendered clauses. */
  lemma SplitRender(cs: seq<Clause>)
    requires cs != [] && CommaFree(cs)
    ensures Split(Render(cs), ',') == RenderAll(cs)
  {
    var parts := RenderAll(cs);
    forall k | 0 <= k < |parts| ensures ',' !in parts[k] {
      ClauseCommas(cs[k]);
      if cs[k].ILike? {
        OccurrencesAbsent(cs[k].term, ',');
      }
      OccurrencesAbsent(parts[k], ',');
    }
    SplitJoin(parts, ',');
  }

  /** The field a column name denotes. */
  function FieldNamed(name: string): Option<Field> {
    if name == "id" then Some(Id)
    else if name == "year" then Some(Year)
    else if name == "vin" then Some(Vin)
    else if name == "model" then Some(Model)
    else if name == "make" then Some(Make)
    else if name == "plates" then Some(Plates)
    else None
  }

  /** Reads one `field.op.value` clause back: the column name runs up to the
      first ".", the operator decides how the rest is read. */
  function ParseClause(s: string): Option<Clause> {
    var name := Split(s, '.')[0];
    match FieldNamed(name)
    case None => None
    case Some(f) => if |name| >= |s| then None else ParseOperation(f, s[|name| + 1..])
  }

  /** Reads the `op.value` part of a clause on field `f`. */
  function ParseOperation(f: Field, body: string): Option<Clause> {
    if "eq." <= body && |body| > 3 then
      match ParseNumber(body[3..])
      case Some(v) => Some(Eq(f, v))
      case None => None
    else if "ilike.%" <= body && |body| >= 8 && body[|body| - 1] == '%' then
      Some(ILike(f, body[7..|body| - 1]))
    else None
  }

  /** Reads a list of clauses back, failing if any piece is not a clause. */
  function ParseAll(pieces: seq<string>): Option<seq<Clause>> {
    if pieces == [] then Some([])
    else match (ParseClause(pieces[0]), ParseAll(pieces[1..]))
      case (Some(c), Some(cs)) => Some([c] + cs)
      case _ => None
  }

  /** Reads a filter string back as the clause list it was rendered from. */
  function ParseFilter(s: string): Option<seq<Clause>> {
    ParseAll(Split(s, ','))
  }

  /** A rendered number reads back as the same number. */
  lemma NumberRoundTrip(v: int)
    ensures ParseNumber(IntToString(v)) == Some(v)
  {
    var r := IntToString(v);
    if v < 0 {
      assert r[0] == '-';
    }
  }

  /** The column name is what comes before the first "." of a rendered clause. */
  lemma ColumnBeforeDot(f: Field, body: string)
    ensures ParseClause(f.Column() + "." + body) == ParseOperation(f, body)
  {
    var col, t := f.Column(), "." + body;
    var s := col + t;
    ColumnFacts(f);
    SplitPrefix(col, t, '.');
    assert t[0] == '.' && t[1..] == body;
    assert Split(t, '.')[0] == [];
    assert col + [] == col;
    assert Split(s, '.')[0] == col;
    assert s[|col| + 1..] == body;
    assert col + "." + body == s;
  }

  lemma EqRoundTrip(f: Field, v: int)
    ensures ParseClause(RenderClause(Eq(f, v))) == Some(Eq(f, v))
  {
    var body := "eq." + IntToString(v);
    assert RenderClause(Eq(f, v)) == f.Column() + "." + body;
    ColumnBeforeDot(f, body);
    assert body[3..] == IntToString(v);
    NumberRoundTrip(v);
  }

  lemma ILikeRoundTrip(f: Field, t: string)
    ensures ParseClause(RenderClause(ILike(f, t))) == Some(ILike(f, t))
  {
    var body := "ilike.%" + t + "%";
    assert RenderClause(ILike(f, t)) == f.Column() + "." + body;
    ColumnBeforeDot(f, body);
    assert body[0] == 'i' && !("eq." <= body);
    assert body[7..|body| - 1] == t;
  }

  /** Every clause reads back from its rendering, whatever its term holds. */
  lemma ClauseRoundTrip(c: Clause)
    ensures ParseClause(RenderClause(c)) == Some(c)
  {
    match c
    case Eq(f, v) => EqRoundTrip(f, v);
    case ILike(f, t) => ILikeRoundTrip(f, t);
  }

  lemma {:induction false} ParseAllRenderAll(cs: seq<Clause>)
    ensures ParseAll(RenderAll(cs)) == Some(cs)
  {
    if cs != [] {
      ClauseRoundTrip(cs[0]);
      ParseAllRenderAll(cs[1..]);
      assert RenderAll(cs)[1..] == RenderAll(cs[1..]);
      assert [cs[0]] + cs[1..] == cs;
    }
  }

  /** Rendering then reading back is the identity on non-empty clause lists
      whose terms hold no comma. */
  lemma FilterRoundTrip(cs: seq<Clause>)
    requires cs != [] && CommaFree(cs)
    ensures ParseFilter(Render(cs)) == Some(cs)
  {
    SplitRender(cs);
    ParseAllRenderAll(cs);
  }
}

/** The compiled query answers the report that was asked, and only from rows and columns the reader may see. */
module ReportCorrectness {
  import opened ReportRegistry
  import opened ReportCompiler
  import opened ReportSpec
  import opened ReportMeaning
  import DecimalText
  import opened Wrappers

  // ---- Placeholders ----

  /** A filter's placeholders, numbered after the arguments so far, find its own values. */
  lemma BoundFilterMeans(db: Db, render: Render, ds: Dataset, sf: SpecFilter, args: seq<Arg>, more: seq<Arg>, r: Row)
    ensures var f := FilterOf(ds, sf.filter);
      PredHolds(db, args + (FilterArgs(render, f, sf) + more), BindFilter(render, f, sf, |args|).0, r)
      <==> FilterHolds(db, render, ds, sf, r)
  {
    var f := FilterOf(ds, sf.filter);
    var own := FilterArgs(render, f, sf);
    ResolveOwn(args, own, more);
    FilterArgsMean(db, render, f, sf, Eval(db, f.expr, r));
  }

  // ---- Values ----

  lemma TruncateIs(n: int, x: real)
    ensures TowardZero(n, x) <==> n == Truncate(x)
  {
  }

  lemma WholeTruncates(x: real)
    ensures Truncate(x) as real == x <==> x == x.Floor as real
  {
    if x == x.Floor as real {
      assert -x == (-x.Floor) as real;
      assert (-x).Floor == -x.Floor;
    }
  }

  /** Exactly one text says a value, and it is the one that is bound. */
  lemma SaysIs(render: Render, s: string, v: Json)
    ensures Says(render, s, v) <==> s == AsString(render, v)
  {
    if v.JNumber? {
      NumberSays(render, s, v.x);
    }
  }

  lemma NumberSays(render: Render, s: string, x: real)
    ensures Says(render, s, JNumber(x)) <==> s == AsString(render, JNumber(x))
  {
    WholeTruncates(x);
    if x == x.Floor as real {
      DecimalText.OneWholeText(s, Truncate(x));
    }
  }

  /** Exactly one value is requested, and it is the one that is bound. */
  lemma RequestIs(render: Render, t: ColumnType, v: Json, b: Bound)
    ensures Requests(render, t, v, b) <==> b == Coerce(render, t, v)
  {
    match b
    case BoundInt(n) => if v.JNumber? { TruncateIs(n, v.x); }
    case BoundBool(c) =>
    case BoundText(s) => SaysIs(render, s, v);
  }

  lemma MeetsIs(render: Render, t: ColumnType, v: Json, p: Bound -> bool)
    ensures Meets(render, t, v, p) <==> p(Coerce(render, t, v))
  {
    RequestIs(render, t, v, Coerce(render, t, v));
    if b :| Requests(render, t, v, b) && p(b) {
      RequestIs(render, t, v, b);
    }
  }

  /** The values a filter binds make its operator mean what was asked. */
  lemma FilterArgsMean(db: Db, render: Render, f: Filter, sf: SpecFilter, v: Value)
    ensures Test(db, sf.operator, v, FilterArgs(render, f, sf)) <==> Wanted(db, render, f, sf, v)
  {
    match sf.operator
    case Eq => MeetsIs(render, f.typ, sf.value, EqualTo(db, v));
    case Ne => MeetsIs(render, f.typ, sf.value, OtherThan(db, v));
    case Gt => MeetsIs(render, f.typ, sf.value, Above(db, v));
    case Gte => MeetsIs(render, f.typ, sf.value, NotBelow(db, v));
    case Lt => MeetsIs(render, f.typ, sf.value, Below(db, v));
    case Lte => MeetsIs(render, f.typ, sf.value, NotAbove(db, v));
    case Like => LikeMeans(db, render, f, sf, v);
    case In => InMeans(db, render, f, sf, v);
    case Between =>
      if |sf.values| >= 2 {
        MeetsIs(render, f.typ, sf.values[0], NotBelow(db, v));
        MeetsIs(render, f.typ, sf.values[1], NotAbove(db, v));
      }
  }

  lemma LikeMeans(db: Db, render: Render, f: Filter, sf: SpecFilter, v: Value)
    requires sf.operator.Like?
    ensures Test(db, Like, v, FilterArgs(render, f, sf)) <==> Wanted(db, render, f, sf, v)
  {
    var x := AsString(render, sf.value);
    SaysIs(render, x, sf.value);
    if v.Text? {
      LikePattern.WrappedMeans(db.same, v.s, x);
      forall s | Says(render, s, sf.value) ensures s == x {
        SaysIs(render, s, sf.value);
      }
    }
  }

  lemma InMeans(db: Db, render: Render, f: Filter, sf: SpecFilter, v: Value)
    requires sf.operator.In?
    ensures Test(db, In, v, FilterArgs(render, f, sf)) <==> Wanted(db, render, f, sf, v)
  {
    var vs := CoerceAll(render, f.typ, sf.values);
    forall i | 0 <= i < |vs|
      ensures db.equal(v, vs[i]) <==> Meets(render, f.typ, sf.values[i], EqualTo(db, v))
    {
      MeetsIs(render, f.typ, sf.values[i], EqualTo(db, v));
    }
  }

  /** The bound value stands for the requested one: the same number, the same truth value, or a text that says it. */
  ghost predicate StandsFor(render: Render, b: Bound, v: Json) {
    match b
    case BoundInt(n) => v == JNumber(n as real)
    case BoundBool(c) => v == JBool(c)
    case BoundText(s) => Says(render, s, v)
  }

  /** Binding keeps every value except a fraction sent to an integer column, which loses its places. */
  lemma CoerceKeeps(render: Render, t: ColumnType, v: Json)
    ensures StandsFor(render, Coerce(render, t, v), v) <==> !(t.IntType? && v.JNumber? && v.x != v.x.Floor as real)
  {
    SaysIs(render, AsString(render, v), v);
    if v.JNumber? {
      WholeTruncates(v.x);
    }
  }

  predicate TextFilters(ds: Dataset) {
    forall i :: 0 <= i < |ds.filters| ==> !ds.filters[i].typ.IntType?
  }

  lemma RegistryFilters(ds: Dataset)
    requires ds in Registry()
    ensures TextFilters(ds)
  {
    assert TextFilters(RevenueDays()) && TextFilters(Deliveries()) && TextFilters(StockMovements());
    assert TextFilters(RiskAlerts()) && TextFilters(Receivables()) && TextFilters(Shifts());
    assert TextFilters(CashPosition()) && TextFilters(AuditTrail());
  }

  /** No registered filter is on an integer column, so every registered filter binds the value it was given. */
  lemma RegistryKeepsValues(ds: Dataset, f: Filter, render: Render, v: Json)
    requires ds in Registry() && f in ds.filters
    ensures StandsFor(render, Coerce(render, f.typ, v), v)
  {
    RegistryFilters(ds);
    var j :| 0 <= j < |ds.filters| && ds.filters[j] == f;
    CoerceKeeps(render, f.typ, v);
  }

  lemma ResolveOwn(args: seq<Arg>, own: seq<Arg>, more: seq<Arg>)
    ensures ResolveAll(args + (own + more), Count1(|args| + 1, |own|)) == own
  {
    var all, ats := args + (own + more), Count1(|args| + 1, |own|);
    forall i | 0 <= i < |own| ensures ResolveAll(all, ats)[i] == own[i] {
      assert all[|args| + i] == own[i];
    }
  }

  /** The conditions built from the scope and the filters mean just that, however many arguments follow. */
  lemma {:induction false} ConditionsMean(db: Db, rep: Report, filters: seq<SpecFilter>, more: seq<Arg>, r: Row)
    ensures Satisfies(db, AllArgs(rep.render, rep.ds, rep.scope, filters) + more,
        AllPreds(rep.render, rep.ds, rep.scope, filters), r)
       <==> InScope(db, rep.ds, rep.scope, r) && Passes(db, rep.render, rep.ds, filters, r)
  {
    if filters == [] {
      ScopeMeans(db, rep, more, r);
    } else {
      var before, last := filters[..|filters| - 1], filters[|filters| - 1];
      var f := FilterOf(rep.ds, last.filter);
      var args, own := AllArgs(rep.render, rep.ds, rep.scope, before), FilterArgs(rep.render, f, last);
      var preds, p := AllPreds(rep.render, rep.ds, rep.scope, before), BindFilter(rep.render, f, last, |args|).0;
      ConditionsMean(db, rep, before, own + more, r);
      BoundFilterMeans(db, rep.render, rep.ds, last, args, more, r);
      SatisfiesSnoc(db, args + (own + more), preds, p, r);
      PassesSnoc(db, rep.render, rep.ds, before, last, r);
      assert (args + own) + more == args + (own + more);
      assert filters == before + [last];
      assert AllArgs(rep.render, rep.ds, rep.scope, filters) == args + own;
      assert AllPreds(rep.render, rep.ds, rep.scope, filters) == preds + [p];
    }
  }

  lemma ScopeMeans(db: Db, rep: Report, more: seq<Arg>, r: Row)
    ensures Satisfies(db, ScopeArgs(rep.ds, rep.scope) + more, ScopePreds(rep.ds, rep.scope), r)
        <==> InScope(db, rep.ds, rep.scope, r)
  {
    var args, preds := ScopeArgs(rep.ds, rep.scope) + more, ScopePreds(rep.ds, rep.scope);
    assert Resolve(args, 1) == TenantArg(rep.scope.tenant);
    assert PredHolds(db, args, preds[0], r) <==> Eval(db, rep.ds.tenant, r) == Uuid(rep.scope.tenant);
    if rep.ds.station.Some? && !rep.scope.tenantWide {
      assert Resolve(args, 2) == StationsArg(rep.scope.stations);
      assert preds == [preds[0], preds[1]];
    }
  }

  lemma SatisfiesSnoc(db: Db, args: seq<Arg>, preds: seq<Pred>, p: Pred, r: Row)
    ensures Satisfies(db, args, preds + [p], r) <==> Satisfies(db, args, preds, r) && PredHolds(db, args, p, r)
  {
    var all := preds + [p];
    assert all[|preds|] == p && forall i :: 0 <= i < |preds| ==> all[i] == preds[i];
  }

  lemma PassesSnoc(db: Db, render: Render, ds: Dataset, filters: seq<SpecFilter>, sf: SpecFilter, r: Row)
    ensures Passes(db, render, ds, filters + [sf], r)
        <==> Passes(db, render, ds, filters, r) && FilterHolds(db, render, ds, sf, r)
  {
    var all := filters + [sf];
    assert all[|filters|] == sf && forall i :: 0 <= i < |filters| ==> all[i] == filters[i];
  }

  function Placeholders(preds: seq<Pred>): seq<nat> {
    if preds == [] then []
    else
      Placeholders(preds[..|preds| - 1]) +
      match preds[|preds| - 1]
      case IsTenant(_, at) => [at]
      case InStations(_, at) => [at]
      case Compare(_, _, ats) => ats
  }

  lemma PlaceholdersSnoc(preds: seq<Pred>, p: Pred)
    ensures Placeholders(preds + [p]) == Placeholders(preds) + Placeholders([p])
  {
    assert (preds + [p])[..|preds|] == preds;
    assert [p][..0] == [];
  }

  lemma Count1Append(n: nat, m: nat)
    ensures Count1(1, n) + Count1(n + 1, m) == Count1(1, n + m)
  {
  }

  lemma ScopePlaceholders(rep: Report)
    ensures Placeholders(ScopePreds(rep.ds, rep.scope)) == Count1(1, |ScopeArgs(rep.ds, rep.scope)|)
  {
    var preds := ScopePreds(rep.ds, rep.scope);
    PlaceholdersSnoc([], preds[0]);
    assert [] + [preds[0]] == [preds[0]];
    if |preds| == 2 {
      PlaceholdersSnoc([preds[0]], preds[1]);
      assert [preds[0]] + [preds[1]] == preds;
    }
  }

  /** Read in order, the query's placeholders are exactly $1, $2, … up to the number of arguments. */
  lemma {:induction false} PlaceholdersExact(rep: Report, filters: seq<SpecFilter>)
    ensures Placeholders(AllPreds(rep.render, rep.ds, rep.scope, filters))
        == Count1(1, |AllArgs(rep.render, rep.ds, rep.scope, filters)|)
  {
    if filters == [] {
      ScopePlaceholders(rep);
    } else {
      var before, last := filters[..|filters| - 1], filters[|filters| - 1];
      var f := FilterOf(rep.ds, last.filter);
      var args, own := AllArgs(rep.render, rep.ds, rep.scope, before), FilterArgs(rep.render, f, last);
      PlaceholdersExact(rep, before);
      PlaceholdersSnoc(AllPreds(rep.render, rep.ds, rep.scope, before), BindFilter(rep.render, f, last, |args|).0);
      OnePlaceholder(rep.render, f, last, |args|);
      Count1Append(|args|, |own|);
    }
  }

  lemma OnePlaceholder(render: Render, f: Filter, sf: SpecFilter, bound: nat)
    ensures Placeholders([BindFilter(render, f, sf, bound).0]) == Count1(bound + 1, |FilterArgs(render, f, sf)|)
  {
    var p := BindFilter(render, f, sf, bound).0;
    assert [p][..0] == [];
  }

  // ---- Rows, groups and cells ----

  lemma {:induction false} KeepSame(rows: seq<Row>, p: Row -> bool, q: Row -> bool)
    requires forall r :: r in rows ==> p(r) == q(r)
    ensures Keep(rows, p) == Keep(rows, q)
  {
    if rows != [] {
      KeepSame(rows[..|rows| - 1], p, q);
    }
  }

  function TheQuery(rep: Report): Query {
    QueryOf(rep.render, rep.ds, rep.spec, rep.scope)
  }

  function TheArgs(rep: Report): seq<Arg> {
    AllArgs(rep.render, rep.ds, rep.scope, rep.spec.filters)
  }

  lemma SameRows(db: Db, rep: Report, table: seq<Row>)
    ensures Keep(table, Where(db, TheArgs(rep), TheQuery(rep))) == Keep(table, Asked(db, rep))
  {
    forall r | r in table ensures Where(db, TheArgs(rep), TheQuery(rep))(r) == Asked(db, rep)(r) {
      ConditionsMean(db, rep, rep.spec.filters, [], r);
      assert TheArgs(rep) + [] == TheArgs(rep);
    }
    KeepSame(table, Where(db, TheArgs(rep), TheQuery(rep)), Asked(db, rep));
  }

  lemma SameKey(db: Db, rep: Report, r: Row)
    ensures GroupKey(db, TheQuery(rep), r) == DimKey(db, rep.ds, rep.spec.dimensions, r)
  {
    var q, dims := TheQuery(rep), rep.spec.dimensions;
    forall i | 0 <= i < |dims| ensures GroupKey(db, q, r)[i] == DimKey(db, rep.ds, dims, r)[i] {
      assert q.select[i] == DimItem(rep.ds, dims[i], i + 1) && q.groupBy[i] == i + 1;
    }
  }

  lemma SameKeys(db: Db, rep: Report, rows: seq<Row>)
    ensures QueryKeys(db, TheQuery(rep), rows) == AnswerKeys(db, rep, rows)
  {
    forall r: Row ensures GroupKey(db, TheQuery(rep), r) == DimKey(db, rep.ds, rep.spec.dimensions, r) {
      SameKey(db, rep, r);
    }
  }

  lemma SameMembers(db: Db, rep: Report, rows: seq<Row>, k: seq<Value>)
    ensures Keep(rows, InGroup(db, TheQuery(rep), k)) == Keep(rows, HasKey(db, rep.ds, rep.spec.dimensions, k))
  {
    forall r | r in rows ensures InGroup(db, TheQuery(rep), k)(r) == HasKey(db, rep.ds, rep.spec.dimensions, k)(r) {
      SameKey(db, rep, r);
    }
    KeepSame(rows, InGroup(db, TheQuery(rep), k), HasKey(db, rep.ds, rep.spec.dimensions, k));
  }

  predicate DimsAt(ds: Dataset, dims: seq<Id>, select: seq<Item>) {
    |dims| <= |select| && forall i :: 0 <= i < |dims| ==> select[i] == DimItem(ds, dims[i], i + 1)
  }

  predicate MeasureAt(ds: Dataset, sm: SpecMeasure, select: seq<Item>, i: nat) {
    i < |select| && select[i] == MeasureItem(ds, sm, i + 1)
  }

  lemma SelectedItems(rep: Report)
    ensures var dims, shown, select := rep.spec.dimensions, Visible(rep), TheQuery(rep).select;
      DimsAt(rep.ds, dims, select) && MeasuresAt(rep.ds, shown, select, |dims|)
  {
  }

  lemma MeasureItemValue(db: Db, ds: Dataset, sm: SpecMeasure, ordinal: nat, members: seq<Row>)
    ensures ItemValue(db, MeasureItem(ds, sm, ordinal), members) == MeasureValue(db, ds, sm, members)
  {
  }

  /** The first row of a group shows the group's key. */
  lemma DimItemValue(db: Db, ds: Dataset, dims: seq<Id>, rows: seq<Row>, k: seq<Value>, i: nat)
    requires i < |dims| && exists r :: r in rows && DimKey(db, ds, dims, r) == k
    ensures i < |k| && ItemValue(db, DimItem(ds, dims[i], i + 1), Keep(rows, HasKey(db, ds, dims, k))) == k[i]
  {
    var members := Keep(rows, HasKey(db, ds, dims, k));
    var r :| r in rows && DimKey(db, ds, dims, r) == k;
    assert r in members && members[0] in members;
    assert DimKey(db, ds, dims, members[0])[i] == k[i];
  }

  lemma DimCell(db: Db, ds: Dataset, dims: seq<Id>, q: Query, rows: seq<Row>, k: seq<Value>, i: nat)
    requires DimsAt(ds, dims, q.select) && i < |dims| && exists r :: r in rows && DimKey(db, ds, dims, r) == k
    requires Keep(rows, InGroup(db, q, k)) == Keep(rows, HasKey(db, ds, dims, k))
    ensures i < |k| && Output(db, q, rows, k)[i] == k[i]
  {
    DimItemValue(db, ds, dims, rows, k, i);
  }

  lemma MeasureCell(db: Db, ds: Dataset, sm: SpecMeasure, q: Query, rows: seq<Row>, k: seq<Value>, i: nat,
                    members: seq<Row>)
    requires MeasureAt(ds, sm, q.select, i) && Keep(rows, InGroup(db, q, k)) == members
    ensures Output(db, q, rows, k)[i] == MeasureValue(db, ds, sm, members)
  {
    MeasureItemValue(db, ds, sm, i + 1, members);
  }

  predicate StartsWith(out: seq<Value>, k: seq<Value>) {
    |k| <= |out| && forall i :: 0 <= i < |k| ==> k[i] == out[i]
  }

  predicate GoesOnWith(out: seq<Value>, n: nat, vs: seq<Value>) {
    |out| == n + |vs| && forall j :: 0 <= j < |vs| ==> vs[j] == out[n + j]
  }

  lemma CellsFrom(out: seq<Value>, k: seq<Value>, vs: seq<Value>)
    requires StartsWith(out, k) && GoesOnWith(out, |k|, vs)
    ensures out == k + vs
  {
    forall i | |k| <= i < |out| ensures out[i] == vs[i - |k|] {
      assert vs[i - |k|] == out[|k| + (i - |k|)];
    }
  }

  lemma DimCells(db: Db, ds: Dataset, dims: seq<Id>, q: Query, rows: seq<Row>, k: seq<Value>)
    requires DimsAt(ds, dims, q.select) && |k| == |dims|
    requires dims != [] ==> exists r :: r in rows && DimKey(db, ds, dims, r) == k
    requires Keep(rows, InGroup(db, q, k)) == Keep(rows, HasKey(db, ds, dims, k))
    ensures StartsWith(Output(db, q, rows, k), k)
  {
    forall i | 0 <= i < |k| ensures k[i] == Output(db, q, rows, k)[i] {
      DimCell(db, ds, dims, q, rows, k, i);
    }
  }

  predicate MeasuresAt(ds: Dataset, shown: seq<SpecMeasure>, select: seq<Item>, n: nat) {
    |select| == n + |shown| && forall j :: 0 <= j < |shown| ==> MeasureAt(ds, shown[j], select, n + j)
  }

  lemma MeasureCells(db: Db, ds: Dataset, shown: seq<SpecMeasure>, q: Query, rows: seq<Row>, k: seq<Value>, n: nat,
                     members: seq<Row>)
    requires MeasuresAt(ds, shown, q.select, n) && Keep(rows, InGroup(db, q, k)) == members
    ensures GoesOnWith(Output(db, q, rows, k), n, MeasureValues(db, ds, shown, members))
  {
    var vs := MeasureValues(db, ds, shown, members);
    forall j | 0 <= j < |vs| ensures vs[j] == Output(db, q, rows, k)[n + j] {
      MeasureCell(db, ds, shown[j], q, rows, k, n + j, members);
    }
  }

  lemma SameCells(db: Db, rep: Report, rows: seq<Row>, k: seq<Value>)
    requires k in AnswerKeys(db, rep, rows)
    ensures Output(db, TheQuery(rep), rows, k) == AnswerCells(db, rep, rows, k)
  {
    var ds, dims, q := rep.ds, rep.spec.dimensions, TheQuery(rep);
    var members := Keep(rows, HasKey(db, ds, dims, k));
    SelectedItems(rep);
    SameMembers(db, rep, rows, k);
    DimCells(db, ds, dims, q, rows, k);
    MeasureCells(db, ds, Visible(rep), q, rows, k, |k|, members);
    CellsFrom(Output(db, q, rows, k), k, MeasureValues(db, ds, Visible(rep), members));
  }

  // ---- Order ----

  function NameAt(dims: nat, c: nat): Alias {
    if c < dims then D(c + 1) else M(c + 1)
  }

  /** Aliases carry the position they stand at. */
  lemma AliasPosition(ds: Dataset, dims: seq<Id>, shown: seq<SpecMeasure>, i: nat)
    requires i < |dims| + |shown|
    ensures FindAlias(SelectList(ds, dims, shown), NameAt(|dims|, i)) == i
  {
    var select := SelectList(ds, dims, shown);
    forall j | 0 <= j < |select| ensures select[j].name == NameAt(|dims|, j) {
      if j >= |dims| {
        assert select[|dims| + (j - |dims|)] == MeasureItem(ds, shown[j - |dims|], j + 1);
      }
    }
    var n := FindAlias(select, NameAt(|dims|, i));
    assert select[i].name == NameAt(|dims|, i);
  }

  predicate Known(ds: Dataset, dims: seq<Id>, shown: seq<SpecMeasure>) {
    && Distinct(dims)
    && (forall i :: 0 <= i < |dims| ==> DimensionOk(ds, dims[i]))
    && (forall j :: 0 <= j < |shown| ==> MeasureById(ds.measures, shown[j].measure).Some?)
  }

  /** The alias found under a bare id is the one of the column a sort on it means. */
  predicate FoundUnder(aliases: map<Field, Alias>, dims: seq<Id>, shown: seq<SpecMeasure>, id: Id) {
    var c := SortColumn(dims, shown, id);
    if c.Some? then Bare(id) in aliases && aliases[Bare(id)] == NameAt(|dims|, c.value) else Bare(id) !in aliases
  }

  lemma DimStep(aliases: map<Field, Alias>, dims: seq<Id>, id: Id)
    requires dims != [] && FoundUnder(aliases, dims[..|dims| - 1], [], id) && Distinct(dims)
    ensures FoundUnder(aliases[Bare(dims[|dims| - 1]) := D(|dims|)], dims, [], id)
  {
  }

  lemma {:induction false} DimAliasIs(ds: Dataset, dims: seq<Id>, id: Id)
    requires Distinct(dims) && forall i :: 0 <= i < |dims| ==> DimensionOk(ds, dims[i])
    ensures FoundUnder(DimAliases(ds, dims), dims, [], id)
  {
    if dims != [] {
      DimAliasIs(ds, dims[..|dims| - 1], id);
      assert DimensionOk(ds, dims[|dims| - 1]);
      DimStep(DimAliases(ds, dims[..|dims| - 1]), dims, id);
    }
  }

  lemma MeasureStep(aliases: map<Field, Alias>, dims: seq<Id>, shown: seq<SpecMeasure>, id: Id)
    requires shown != [] && FoundUnder(aliases, dims, shown[..|shown| - 1], id)
    requires IndexOf(dims, id) < |dims| ==> Bare(id) in aliases
    ensures var last := shown[|shown| - 1];
      FoundUnder(AddMeasureAlias(aliases, last.measure, last.agg, M(|dims| + |shown|)), dims, shown, id)
  {
  }

  lemma {:induction false} AliasIs(ds: Dataset, dims: seq<Id>, shown: seq<SpecMeasure>, id: Id)
    requires Known(ds, dims, shown)
    ensures FoundUnder(MeasureAliases(ds, dims, shown), dims, shown, id)
  {
    if shown == [] {
      DimAliasIs(ds, dims, id);
    } else {
      AliasIs(ds, dims, shown[..|shown| - 1], id);
      assert MeasureOf(ds, shown[|shown| - 1].measure).id == shown[|shown| - 1].measure;
      MeasureStep(MeasureAliases(ds, dims, shown[..|shown| - 1]), dims, shown, id);
    }
  }

  lemma {:induction false} SameSort(ds: Dataset, dims: seq<Id>, shown: seq<SpecMeasure>, aliases: map<Field, Alias>,
                                    sort: seq<SpecSort>)
    requires forall id :: FoundUnder(aliases, dims, shown, id)
    ensures Directions(SelectList(ds, dims, shown), SortKeys(sort, aliases)) == SortDirections(dims, shown, sort)
  {
    if sort != [] {
      SameSort(ds, dims, shown, aliases, sort[..|sort| - 1]);
      var last := sort[|sort| - 1];
      assert FoundUnder(aliases, dims, shown, last.key);
      var c := SortColumn(dims, shown, last.key);
      if c.Some? {
        AliasPosition(ds, dims, shown, c.value);
      }
    }
  }

  lemma SameOrder(ds: Dataset, dims: seq<Id>, shown: seq<SpecMeasure>, sort: seq<SpecSort>)
    requires Known(ds, dims, shown)
    ensures Directions(SelectList(ds, dims, shown), OrderBy(sort, MeasureAliases(ds, dims, shown), Count1(1, |dims|)))
         == AskedOrder(dims, shown, sort)
  {
    forall id ensures FoundUnder(MeasureAliases(ds, dims, shown), dims, shown, id) {
      AliasIs(ds, dims, shown, id);
    }
    SameSort(ds, dims, shown, MeasureAliases(ds, dims, shown), sort);
    DefaultOrder(SelectList(ds, dims, shown), |dims|);
  }

  lemma DefaultOrder(select: seq<Item>, n: nat)
    ensures Directions(select, Ordinals(Count1(1, n))) == seq(n, i requires 0 <= i < n => Direction(i, false))
  {
    var ds := Directions(select, Ordinals(Count1(1, n)));
    forall i | 0 <= i < n ensures ds[i] == Direction(i, false) {
      assert Ordinals(Count1(1, n))[i] == ByOrdinal(i + 1);
    }
  }

  // ---- The theorem ----

  lemma KnownSpec(rep: Report)
    requires ValidSpec(rep.ds, rep.spec)
    ensures Known(rep.ds, rep.spec.dimensions, Visible(rep))
  {
    forall j | 0 <= j < |Visible(rep)| ensures MeasureById(rep.ds.measures, Visible(rep)[j].measure).Some? {
      assert Visible(rep)[j] in rep.spec.measures;
      var i :| 0 <= i < |rep.spec.measures| && rep.spec.measures[i] == Visible(rep)[j];
      assert MeasureOk(rep.ds, rep.spec.measures[i]);
    }
  }

  lemma SameListing(db: Db, keys: set<seq<Value>>, out: seq<Value> -> seq<Value>, other: seq<Value> -> seq<Value>,
                    order: seq<Direction>, limit: nat, ks: seq<seq<Value>>, result: seq<seq<Value>>)
    requires forall k :: k in keys ==> out(k) == other(k)
    ensures Listed(db, keys, out, order, limit, ks, result) <==> Listed(db, keys, other, order, limit, ks, result)
  {
    if Lists(ks, keys) {
      forall i | 0 <= i < |ks| ensures Each(ks, out)[i] == Each(ks, other)[i] {
        assert ks[i] in ks;
      }
      assert Each(ks, out) == Each(ks, other);
    }
  }

  /** For every valid specification, every reader it is not refused to, every table and every database,
      the results the compiled query may return are exactly the answers to the report. */
  lemma CompilationIsCorrect(db: Db, rep: Report, table: seq<Row>, result: seq<seq<Value>>)
    requires ValidSpec(rep.ds, rep.spec)
    ensures IsResult(db, TheQuery(rep), TheArgs(rep), table, result) <==> IsAnswer(db, rep, table, result)
  {
    var q, rows := TheQuery(rep), Keep(table, Asked(db, rep));
    var keys, order := AnswerKeys(db, rep, rows), AskedOrder(rep.spec.dimensions, Visible(rep), rep.spec.sort);
    SameRows(db, rep, table);
    SameKeys(db, rep, rows);
    KnownSpec(rep);
    SameOrder(rep.ds, rep.spec.dimensions, Visible(rep), rep.spec.sort);
    forall k | k in keys ensures QueryRow(db, q, rows)(k) == AnswerRow(db, rep, rows)(k) {
      SameCells(db, rep, rows, k);
    }
    forall ks ensures Listed(db, keys, QueryRow(db, q, rows), order, q.limit, ks, result)
                 <==> Listed(db, keys, AnswerRow(db, rep, rows), order, q.limit, ks, result)
    {
      SameListing(db, keys, QueryRow(db, q, rows), AnswerRow(db, rep, rows), order, q.limit, ks, result);
    }
  }

  // ---- Columns describe what is selected ----

  ghost predicate Describes(ds: Dataset, c: Column, item: Item) {
    if c.dimension
      then !c.decimal && c.unit.None?
        && exists d :: d in ds.dimensions && c.field == Bare(d.id) && item.PlainItem? && item.expr == d.expr
    else
      exists m, a :: m in ds.measures && c.field == Of(m.id, a) && c.decimal == m.decimal && c.unit == Some(m.unit)
        && if a == Agg.Count then item.CountItem? else item.AggregateItem? && item.agg == a && item.expr == m.expr
  }

  lemma DescribesDimension(ds: Dataset, id: Id, ordinal: nat)
    requires DimensionOk(ds, id)
    ensures Describes(ds, DimColumn(ds, id), DimItem(ds, id, ordinal))
  {
    assert DimOf(ds, id) in ds.dimensions;
  }

  lemma DescribesMeasure(ds: Dataset, sm: SpecMeasure, ordinal: nat)
    requires MeasureById(ds.measures, sm.measure).Some?
    ensures Describes(ds, MeasureColumn(ds, sm), MeasureItem(ds, sm, ordinal))
  {
    var m := MeasureOf(ds, sm.measure);
    assert m in ds.measures && MeasureColumn(ds, sm).field == Of(m.id, sm.agg);
  }

  lemma DescribesColumn(ds: Dataset, dims: seq<Id>, shown: seq<SpecMeasure>, i: nat)
    requires Known(ds, dims, shown) && i < |dims| + |shown|
    ensures Describes(ds, ColumnList(ds, dims, shown)[i], SelectList(ds, dims, shown)[i])
  {
    if i < |dims| {
      DescribesDimension(ds, dims[i], i + 1);
    } else {
      var j := i - |dims|;
      assert ColumnList(ds, dims, shown)[|dims| + j] == MeasureColumn(ds, shown[j]);
      assert SelectList(ds, dims, shown)[|dims| + j] == MeasureItem(ds, shown[j], i + 1);
      DescribesMeasure(ds, shown[j], i + 1);
    }
  }

  /** A composed report either has nothing to select, or is the query of the theorem with its arguments;
      column i describes select item i, and sensitive measures are gone. */
  lemma ComposedReport(rep: Report)
    requires ValidSpec(rep.ds, rep.spec) && Refused(rep.ds, rep.scope).None?
    ensures var r := Compile(rep.render, rep.ds, rep.spec, rep.scope);
      && r.Ok?
      && (r.value.query.None? <==> rep.spec.dimensions == [] && Visible(rep) == [])
      && (r.value.query.Some? ==>
            && r.value.query.value == TheQuery(rep) && r.value.args == TheArgs(rep)
            && |r.value.columns| == |TheQuery(rep).select|
            && forall i :: 0 <= i < |r.value.columns| ==>
              Describes(rep.ds, r.value.columns[i], TheQuery(rep).select[i]))
  {
    var dims, shown := rep.spec.dimensions, Visible(rep);
    var columns, select := ColumnList(rep.ds, dims, shown), SelectList(rep.ds, dims, shown);
    KnownSpec(rep);
    forall i | 0 <= i < |columns| ensures Describes(rep.ds, columns[i], select[i]) {
      DescribesColumn(rep.ds, dims, shown, i);
    }
  }

  // ---- Who is refused ----

  /** A report is compiled if and only if there is a tenant, and the reader sees all of it or has a grant for a station
      in a dataset that tells stations apart; otherwise the first of the three that fails is named. */
  lemma RefusedIff(render: Render, ds: Dataset, spec: Spec, scope: Scope)
    ensures var r := Compile(render, ds, spec, scope);
      && (r.Ok? <==> scope.tenant != 0 && (scope.tenantWide || (ds.station.Some? && scope.stations != [])))
      && (r.Err? ==> r.error == if scope.tenant == 0 then NoTenant
                       else if ds.station.None? then RequiresTenantWide else NoStationAccess)
  {
  }

  // ---- Which measures are shown ----

  function Filtered(ms: seq<SpecMeasure>, p: SpecMeasure -> bool): seq<SpecMeasure> {
    if ms == [] then []
    else
      var rest, last := Filtered(ms[..|ms| - 1], p), ms[|ms| - 1];
      if p(last) then rest + [last] else rest
  }

  function Names(ms: seq<SpecMeasure>): seq<Id> {
    seq(|ms|, i requires 0 <= i < |ms| => ms[i].measure)
  }

  function Secret(ds: Dataset): SpecMeasure -> bool {
    (sm: SpecMeasure) => MeasureOf(ds, sm.measure).sensitive
  }

  function Open(ds: Dataset): SpecMeasure -> bool {
    (sm: SpecMeasure) => !MeasureOf(ds, sm.measure).sensitive
  }

  /** A reader with the permission gets every measure asked for and nothing omitted; one without it gets exactly those
      that are not sensitive, in order, and the others are listed as omitted. */
  lemma {:induction false} ShownAre(ds: Dataset, scope: Scope, ms: seq<SpecMeasure>)
    ensures var shown, omitted := ShownMeasures(ds, scope, ms), Omitted(ds, scope, ms);
      if scope.allowSensitive then shown == ms && omitted == []
      else shown == Filtered(ms, Open(ds)) && omitted == Names(Filtered(ms, Secret(ds)))
  {
    if ms != [] {
      var before, last := ms[..|ms| - 1], ms[|ms| - 1];
      ShownAre(ds, scope, before);
      assert ms == before + [last];
      NamesSnoc(Filtered(before, Secret(ds)), last);
    }
  }

  lemma NamesSnoc(ms: seq<SpecMeasure>, sm: SpecMeasure)
    ensures Names(ms + [sm]) == Names(ms) + [sm.measure]
  {
  }

  // ---- Rows outside the reader's scope do not matter ----

  function Within(db: Db, rep: Report): Row -> bool {
    (r: Row) => InScope(db, rep.ds, rep.scope, r)
  }

  lemma {:induction false} KeepTwice(rows: seq<Row>, p: Row -> bool, q: Row -> bool)
    requires forall r :: r in rows && q(r) ==> p(r)
    ensures Keep(Keep(rows, p), q) == Keep(rows, q)
  {
    if rows != [] {
      var before, last := rows[..|rows| - 1], rows[|rows| - 1];
      KeepTwice(before, p, q);
      if p(last) {
        assert (Keep(before, p) + [last])[..|Keep(before, p)|] == Keep(before, p);
      }
    }
  }

  lemma ScopeOnly(db: Db, rep: Report, t1: seq<Row>, t2: seq<Row>, result: seq<seq<Value>>)
    requires Keep(t1, Within(db, rep)) == Keep(t2, Within(db, rep))
    ensures IsAnswer(db, rep, t1, result) <==> IsAnswer(db, rep, t2, result)
  {
    KeepTwice(t1, Within(db, rep), Asked(db, rep));
    KeepTwice(t2, Within(db, rep), Asked(db, rep));
  }

  // ---- Hidden columns do not matter ----

  /** Rows that differ at most in the hidden columns. */
  predicate Alike(r1: Row, r2: Row, hidden: set<TableColumn>) {
    r1 - hidden == r2 - hidden
  }

  predicate AllAlike(t1: seq<Row>, t2: seq<Row>, hidden: set<TableColumn>) {
    |t1| == |t2| && forall i :: 0 <= i < |t1| ==> Alike(t1[i], t2[i], hidden)
  }

  lemma EvalAlike(db: Db, e: Expr, r1: Row, r2: Row, hidden: set<TableColumn>)
    requires Alike(r1, r2, hidden) && Avoids(e, hidden)
    ensures Eval(db, e, r1) == Eval(db, e, r2)
  {
    var c1, c2 := Restrict(r1, Columns(e)), Restrict(r2, Columns(e));
    forall c | c in Columns(e) ensures (c in r1 <==> c in r2) && (c in r1 ==> r1[c] == r2[c]) {
      assert c in r1 - hidden <==> c in r1;
      assert c in r2 - hidden <==> c in r2;
      assert c in r1 ==> r1[c] == (r1 - hidden)[c] == (r2 - hidden)[c];
    }
    assert c1 == c2;
  }

  ghost predicate AgreeOn(p: Row -> bool, t1: seq<Row>, t2: seq<Row>) {
    |t1| == |t2| && forall i :: 0 <= i < |t1| ==> p(t1[i]) == p(t2[i])
  }

  lemma AlikeSnoc(t1: seq<Row>, t2: seq<Row>, r1: Row, r2: Row, hidden: set<TableColumn>)
    requires AllAlike(t1, t2, hidden) && Alike(r1, r2, hidden)
    ensures AllAlike(t1 + [r1], t2 + [r2], hidden)
  {
  }

  lemma {:induction false} KeepAlike(t1: seq<Row>, t2: seq<Row>, p: Row -> bool, hidden: set<TableColumn>)
    requires AllAlike(t1, t2, hidden) && AgreeOn(p, t1, t2)
    ensures AllAlike(Keep(t1, p), Keep(t2, p), hidden)
  {
    if t1 != [] {
      var n := |t1| - 1;
      KeepAlike(t1[..n], t2[..n], p, hidden);
      assert p(t1[n]) == p(t2[n]) && Alike(t1[n], t2[n], hidden);
      if p(t1[n]) {
        AlikeSnoc(Keep(t1[..n], p), Keep(t2[..n], p), t1[n], t2[n], hidden);
      }
    }
  }

  lemma {:induction false} ValuesAlike(db: Db, e: Expr, t1: seq<Row>, t2: seq<Row>, hidden: set<TableColumn>)
    requires AllAlike(t1, t2, hidden) && Avoids(e, hidden)
    ensures Values(db, e, t1) == Values(db, e, t2)
  {
    if t1 != [] {
      ValuesAlike(db, e, t1[..|t1| - 1], t2[..|t2| - 1], hidden);
      EvalAlike(db, e, t1[|t1| - 1], t2[|t2| - 1], hidden);
    }
  }

  lemma AskedAlike(db: Db, rep: Report, r1: Row, r2: Row, hidden: set<TableColumn>)
    requires SensitiveApart(rep.ds, hidden) && Alike(r1, r2, hidden)
    ensures Asked(db, rep)(r1) == Asked(db, rep)(r2)
  {
    EvalAlike(db, rep.ds.tenant, r1, r2, hidden);
    if rep.ds.station.Some? {
      EvalAlike(db, rep.ds.station.value, r1, r2, hidden);
    }
    forall i | 0 <= i < |rep.spec.filters|
      ensures FilterHolds(db, rep.render, rep.ds, rep.spec.filters[i], r1)
          == FilterHolds(db, rep.render, rep.ds, rep.spec.filters[i], r2)
    {
      EvalAlike(db, FilterOf(rep.ds, rep.spec.filters[i].filter).expr, r1, r2, hidden);
    }
  }

  lemma DimKeyAlike(db: Db, ds: Dataset, dims: seq<Id>, r1: Row, r2: Row, hidden: set<TableColumn>)
    requires SensitiveApart(ds, hidden) && Alike(r1, r2, hidden)
    ensures DimKey(db, ds, dims, r1) == DimKey(db, ds, dims, r2)
  {
    forall i | 0 <= i < |dims| ensures DimKey(db, ds, dims, r1)[i] == DimKey(db, ds, dims, r2)[i] {
      EvalAlike(db, DimOf(ds, dims[i]).expr, r1, r2, hidden);
    }
  }

  lemma KeysAlike(db: Db, rep: Report, rows1: seq<Row>, rows2: seq<Row>, hidden: set<TableColumn>)
    requires SensitiveApart(rep.ds, hidden) && AllAlike(rows1, rows2, hidden)
    ensures AnswerKeys(db, rep, rows1) == AnswerKeys(db, rep, rows2)
  {
    var ds, dims := rep.ds, rep.spec.dimensions;
    forall i | 0 <= i < |rows1| ensures DimKey(db, ds, dims, rows1[i]) == DimKey(db, ds, dims, rows2[i]) {
      DimKeyAlike(db, ds, dims, rows1[i], rows2[i], hidden);
    }
    if dims != [] {
      forall k ensures k in AnswerKeys(db, rep, rows1) <==> k in AnswerKeys(db, rep, rows2) {
        if k in AnswerKeys(db, rep, rows1) {
          var i :| 0 <= i < |rows1| && DimKey(db, ds, dims, rows1[i]) == k;
          assert rows2[i] in rows2;
        }
        if k in AnswerKeys(db, rep, rows2) {
          var i :| 0 <= i < |rows2| && DimKey(db, ds, dims, rows2[i]) == k;
          assert rows1[i] in rows1;
        }
      }
    }
  }

  /** Without the permission, a shown measure reads no hidden column. */
  lemma ShownAvoids(rep: Report, sm: SpecMeasure, hidden: set<TableColumn>)
    requires SensitiveApart(rep.ds, hidden) && !rep.scope.allowSensitive && Shown(rep.ds, rep.scope, sm)
    ensures Avoids(MeasureOf(rep.ds, sm.measure).expr, hidden)
  {
    var m := MeasureById(rep.ds.measures, sm.measure);
    if m.Some? {
      var i :| 0 <= i < |rep.ds.measures| && rep.ds.measures[i] == m.value;
      assert MeasureApart(rep.ds.measures[i], hidden);
    }
  }

  lemma CellsAlike(db: Db, rep: Report, rows1: seq<Row>, rows2: seq<Row>, k: seq<Value>, hidden: set<TableColumn>)
    requires SensitiveApart(rep.ds, hidden) && !rep.scope.allowSensitive && AllAlike(rows1, rows2, hidden)
    ensures AnswerCells(db, rep, rows1, k) == AnswerCells(db, rep, rows2, k)
  {
    var p, shown := HasKey(db, rep.ds, rep.spec.dimensions, k), Visible(rep);
    forall i | 0 <= i < |rows1| ensures p(rows1[i]) == p(rows2[i]) {
      DimKeyAlike(db, rep.ds, rep.spec.dimensions, rows1[i], rows2[i], hidden);
    }
    KeepAlike(rows1, rows2, p, hidden);
    forall j | 0 <= j < |shown|
      ensures MeasureValue(db, rep.ds, shown[j], Keep(rows1, p)) == MeasureValue(db, rep.ds, shown[j], Keep(rows2, p))
    {
      assert shown[j] in shown;
      ShownAvoids(rep, shown[j], hidden);
      ValuesAlike(db, MeasureOf(rep.ds, shown[j].measure).expr, Keep(rows1, p), Keep(rows2, p), hidden);
    }
    var a, b := AnswerCells(db, rep, rows1, k), AnswerCells(db, rep, rows2, k);
    forall i | 0 <= i < |a| ensures a[i] == b[i] {
      if i >= |k| {
        assert a[|k| + (i - |k|)] == a[i] && b[|k| + (i - |k|)] == b[i];
      }
    }
  }

  lemma VisibleColumnsOnly(db: Db, rep: Report, t1: seq<Row>, t2: seq<Row>, hidden: set<TableColumn>,
                           result: seq<seq<Value>>)
    requires SensitiveApart(rep.ds, hidden) && !rep.scope.allowSensitive && AllAlike(t1, t2, hidden)
    ensures IsAnswer(db, rep, t1, result) <==> IsAnswer(db, rep, t2, result)
  {
    forall i | 0 <= i < |t1| ensures Asked(db, rep)(t1[i]) == Asked(db, rep)(t2[i]) {
      AskedAlike(db, rep, t1[i], t2[i], hidden);
    }
    KeepAlike(t1, t2, Asked(db, rep), hidden);
    var rows1, rows2 := Keep(t1, Asked(db, rep)), Keep(t2, Asked(db, rep));
    KeysAlike(db, rep, rows1, rows2, hidden);
    var keys, order, limit := AnswerKeys(db, rep, rows1),
      AskedOrder(rep.spec.dimensions, Visible(rep), rep.spec.sort), LimitOf(rep.spec.limit);
    forall k | k in keys ensures AnswerRow(db, rep, rows1)(k) == AnswerRow(db, rep, rows2)(k) {
      CellsAlike(db, rep, rows1, rows2, k, hidden);
    }
    forall ks ensures Listed(db, keys, AnswerRow(db, rep, rows1), order, limit, ks, result)
                 <==> Listed(db, keys, AnswerRow(db, rep, rows2), order, limit, ks, result)
    {
      SameListing(db, keys, AnswerRow(db, rep, rows1), AnswerRow(db, rep, rows2), order, limit, ks, result);
    }
  }

  /** What the query may return, order and cut included, does not depend on rows of other tenants or of
      stations the reader has no grant for. */
  lemma QueryIgnoresOtherRows(db: Db, rep: Report, t1: seq<Row>, t2: seq<Row>, result: seq<seq<Value>>)
    requires ValidSpec(rep.ds, rep.spec) && Keep(t1, Within(db, rep)) == Keep(t2, Within(db, rep))
    ensures IsResult(db, TheQuery(rep), TheArgs(rep), t1, result)
        <==> IsResult(db, TheQuery(rep), TheArgs(rep), t2, result)
  {
    CompilationIsCorrect(db, rep, t1, result);
    CompilationIsCorrect(db, rep, t2, result);
    ScopeOnly(db, rep, t1, t2, result);
  }

  function SensitiveColumns(ds: Dataset): set<TableColumn> {
    set m, c | m in ds.measures && m.sensitive && c in Columns(m.expr) :: c
  }

  lemma AlikeWider(ds: Dataset, t1: seq<Row>, t2: seq<Row>, hidden: set<TableColumn>)
    requires SensitiveApart(ds, hidden) && AllAlike(t1, t2, SensitiveColumns(ds))
    ensures AllAlike(t1, t2, hidden)
  {
    assert SensitiveColumns(ds) <= hidden by {
      forall m, c | m in ds.measures && m.sensitive && c in Columns(m.expr) ensures c in hidden {
        var i :| 0 <= i < |ds.measures| && ds.measures[i] == m;
        assert MeasureApart(ds.measures[i], hidden);
      }
    }
    forall i | 0 <= i < |t1| ensures Alike(t1[i], t2[i], hidden) {
      var s := SensitiveColumns(ds);
      assert t1[i] - hidden == (t1[i] - s) - hidden && t2[i] - hidden == (t2[i] - s) - hidden;
    }
  }

  /** Nor, for a reader without the permission, on the columns behind sensitive measures, in any dataset
      of the registry. */
  lemma QueryIgnoresSensitive(db: Db, rep: Report, t1: seq<Row>, t2: seq<Row>, result: seq<seq<Value>>)
    requires rep.ds in Registry() && ValidSpec(rep.ds, rep.spec) && !rep.scope.allowSensitive
    requires AllAlike(t1, t2, SensitiveColumns(rep.ds))
    ensures IsResult(db, TheQuery(rep), TheArgs(rep), t1, result)
        <==> IsResult(db, TheQuery(rep), TheArgs(rep), t2, result)
  {
    RegistryApart(rep.ds);
    SensitiveIgnored(db, rep, t1, t2, result);
  }

  lemma SensitiveIgnored(db: Db, rep: Report, t1: seq<Row>, t2: seq<Row>, result: seq<seq<Value>>)
    requires KeptApart(rep.ds) && ValidSpec(rep.ds, rep.spec) && !rep.scope.allowSensitive
    requires AllAlike(t1, t2, SensitiveColumns(rep.ds))
    ensures IsResult(db, TheQuery(rep), TheArgs(rep), t1, result)
        <==> IsResult(db, TheQuery(rep), TheArgs(rep), t2, result)
  {
    var hidden :| SensitiveApart(rep.ds, hidden);
    AlikeWider(rep.ds, t1, t2, hidden);
    CompilationIsCorrect(db, rep, t1, result);
    CompilationIsCorrect(db, rep, t2, result);
    VisibleColumnsOnly(db, rep, t1, t2, hidden, result);
  }
}

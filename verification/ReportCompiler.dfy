/** Compiling a report specification to a query.

The query is a syntax tree: select items with aliases, predicates over numbered placeholders,
GROUP BY ordinals, ORDER BY aliases.  Values travel beside it in the argument list.  `Compile`
specifies the result; `Compose` builds it the way the composer does, appending in loops.
 */
module ReportCompiler {
  import opened ReportRegistry
  import DecimalText
  import opened Wrappers

  /** A decoded request value. */
  datatype Json = JString(s: string) | JNumber(x: real) | JBool(b: bool) | JNull | JOther(shown: string)

  /** How a fractional number prints. */
  type Render = real -> string

  datatype SpecMeasure = SpecMeasure(measure: Id, agg: Agg)

  datatype SpecFilter = SpecFilter(filter: Id, operator: Operator, value: Json, values: seq<Json>)

  datatype SpecSort = SpecSort(key: Id, desc: bool)

  datatype Spec = Spec(dimensions: seq<Id>, measures: seq<SpecMeasure>, filters: seq<SpecFilter>, sort: seq<SpecSort>,
                       limit: int)

  /** `tenant` 0 is the nil id. */
  datatype Scope = Scope(tenant: nat, tenantWide: bool, stations: seq<nat>, allowSensitive: bool)

  datatype Bound = BoundInt(n: int) | BoundBool(b: bool) | BoundText(s: string)

  datatype Arg =
    | TenantArg(id: nat)
    | StationsArg(ids: seq<nat>)
    | ScalarArg(v: Bound)
    | ListArg(vs: seq<Bound>)
    | Unbound

  datatype Alias = D(n: nat) | M(n: nat)

  datatype Item =
    | PlainItem(expr: Expr, name: Alias)
    | AggregateItem(agg: Agg, expr: Expr, name: Alias)
    | CountItem(name: Alias)

  datatype Pred =
    | IsTenant(expr: Expr, at: nat)
    | InStations(expr: Expr, at: nat)
    | Compare(expr: Expr, op: Operator, ats: seq<nat>)

  datatype OrderKey = ByAlias(name: Alias, desc: bool) | ByOrdinal(n: nat)

  datatype Query = Query(select: seq<Item>, conditions: seq<Pred>, groupBy: seq<nat>, orderBy: seq<OrderKey>,
                         limit: nat)

  /** What a sort or a result key names: a dimension or measure, or a measure under an aggregate. */
  datatype Field = Bare(id: Id) | Of(id: Id, agg: Agg)

  datatype Column = Column(field: Field, dimension: bool, decimal: bool, unit: Option<Unit>)

  /** `query` is None when nothing is left to select. */
  datatype Compiled = Compiled(columns: seq<Column>, query: Option<Query>, args: seq<Arg>, omitted: seq<Id>)

  datatype Error = NoTenant | NoStationAccess | RequiresTenantWide

  const MAX_LIMIT := 1000
  const DEFAULT_LIMIT := 200

  // ---- Lookups, with zero values for what is missing ----

  function DimOf(ds: Dataset, id: Id): Dimension {
    var d := DimById(ds.dimensions, id);
    if d.Some? then d.value else Dimension(id, One)
  }

  function MeasureOf(ds: Dataset, id: Id): Measure {
    var m := MeasureById(ds.measures, id);
    if m.Some? then m.value else Measure(id, One, [], false, Tally, false)
  }

  function FilterOf(ds: Dataset, id: Id): Filter {
    var f := FilterById(ds.filters, id);
    if f.Some? then f.value else Filter(id, One, TextType, [])
  }

  // ---- Binding values ----

  function Truncate(x: real): int {
    if x >= 0.0 then x.Floor else -((-x).Floor)
  }

  function IntText(n: int): string {
    if n < 0 then "-" + DecimalText.NatText(-n) else DecimalText.NatText(n)
  }

  function AsString(render: Render, v: Json): string {
    match v
    case JString(s) => s
    case JNumber(x) => if x == Truncate(x) as real then IntText(Truncate(x)) else render(x)
    case JBool(b) => if b then "true" else "false"
    case JNull => ""
    case JOther(shown) => shown
  }

  function Coerce(render: Render, t: ColumnType, v: Json): Bound {
    if t.IntType? && v.JNumber? then BoundInt(Truncate(v.x))
    else if t.BoolType? && v.JBool? then BoundBool(v.b)
    else BoundText(AsString(render, v))
  }

  function CoerceAll(render: Render, t: ColumnType, vs: seq<Json>): (out: seq<Bound>)
    ensures |out| == |vs|
    ensures forall i :: 0 <= i < |vs| ==> out[i] == Coerce(render, t, vs[i])
  {
    if vs == [] then [] else CoerceAll(render, t, vs[..|vs| - 1]) + [Coerce(render, t, vs[|vs| - 1])]
  }

  /** The values one filter binds: a list for `in`, two for `between`, a pattern for `like`. */
  function FilterArgs(render: Render, f: Filter, sf: SpecFilter): seq<Arg> {
    match sf.operator
    case Like => [ScalarArg(BoundText("%" + AsString(render, sf.value) + "%"))]
    case In => [ListArg(CoerceAll(render, f.typ, sf.values))]
    case Between =>
      if |sf.values| < 2 then []
      else [ScalarArg(Coerce(render, f.typ, sf.values[0])), ScalarArg(Coerce(render, f.typ, sf.values[1]))]
    case _ => [ScalarArg(Coerce(render, f.typ, sf.value))]
  }

  function Count1(from: nat, n: nat): (ns: seq<nat>)
    ensures |ns| == n && forall i :: 0 <= i < n ==> ns[i] == from + i
  {
    seq(n, i requires 0 <= i < n => from + i)
  }

  function BindFilter(render: Render, f: Filter, sf: SpecFilter, baseN: nat): (Pred, seq<Arg>) {
    var args := FilterArgs(render, f, sf);
    (Compare(f.expr, sf.operator, Count1(baseN + 1, |args|)), args)
  }

  // ---- What the composer builds ----

  predicate Shown(ds: Dataset, scope: Scope, sm: SpecMeasure) {
    !MeasureOf(ds, sm.measure).sensitive || scope.allowSensitive
  }

  function ShownMeasures(ds: Dataset, scope: Scope, ms: seq<SpecMeasure>): (out: seq<SpecMeasure>)
    ensures forall sm :: sm in out <==> sm in ms && Shown(ds, scope, sm)
  {
    if ms == [] then []
    else
      var rest, last := ShownMeasures(ds, scope, ms[..|ms| - 1]), ms[|ms| - 1];
      if Shown(ds, scope, last) then rest + [last] else rest
  }

  function Omitted(ds: Dataset, scope: Scope, ms: seq<SpecMeasure>): seq<Id> {
    if ms == [] then []
    else
      var rest, last := Omitted(ds, scope, ms[..|ms| - 1]), ms[|ms| - 1];
      if Shown(ds, scope, last) then rest else rest + [MeasureOf(ds, last.measure).id]
  }

  function DimItem(ds: Dataset, id: Id, ordinal: nat): Item {
    PlainItem(DimOf(ds, id).expr, D(ordinal))
  }

  function MeasureItem(ds: Dataset, sm: SpecMeasure, ordinal: nat): Item {
    if sm.agg.Count? then CountItem(M(ordinal))
    else AggregateItem(sm.agg, MeasureOf(ds, sm.measure).expr, M(ordinal))
  }

  function DimColumn(ds: Dataset, id: Id): Column {
    Column(Bare(DimOf(ds, id).id), true, false, None)
  }

  function MeasureColumn(ds: Dataset, sm: SpecMeasure): Column {
    var m := MeasureOf(ds, sm.measure);
    Column(Of(m.id, sm.agg), false, m.decimal, Some(m.unit))
  }

  /** Dimensions first, then measures, numbered from 1. */
  function SelectList(ds: Dataset, dims: seq<Id>, shown: seq<SpecMeasure>): (items: seq<Item>)
    ensures |items| == |dims| + |shown|
    ensures forall i :: 0 <= i < |dims| ==> items[i] == DimItem(ds, dims[i], i + 1)
    ensures forall j :: 0 <= j < |shown| ==> items[|dims| + j] == MeasureItem(ds, shown[j], |dims| + j + 1)
    decreases |shown|, |dims|
  {
    if shown != [] then
      SelectList(ds, dims, shown[..|shown| - 1]) + [MeasureItem(ds, shown[|shown| - 1], |dims| + |shown|)]
    else if dims != [] then SelectList(ds, dims[..|dims| - 1], []) + [DimItem(ds, dims[|dims| - 1], |dims|)]
    else []
  }

  function ColumnList(ds: Dataset, dims: seq<Id>, shown: seq<SpecMeasure>): (columns: seq<Column>)
    ensures |columns| == |dims| + |shown|
    ensures forall i :: 0 <= i < |dims| ==> columns[i] == DimColumn(ds, dims[i])
    ensures forall j :: 0 <= j < |shown| ==> columns[|dims| + j] == MeasureColumn(ds, shown[j])
    decreases |shown|, |dims|
  {
    if shown != [] then ColumnList(ds, dims, shown[..|shown| - 1]) + [MeasureColumn(ds, shown[|shown| - 1])]
    else if dims != [] then ColumnList(ds, dims[..|dims| - 1], []) + [DimColumn(ds, dims[|dims| - 1])]
    else []
  }

  function DimAliases(ds: Dataset, dims: seq<Id>): map<Field, Alias> {
    if dims == [] then map[]
    else DimAliases(ds, dims[..|dims| - 1])[Bare(DimOf(ds, dims[|dims| - 1]).id) := D(|dims|)]
  }

  /** A measure is found under its key, and under its bare id unless that is already taken. */
  function AddMeasureAlias(aliases: map<Field, Alias>, id: Id, agg: Agg, name: Alias): map<Field, Alias> {
    var keyed := aliases[Of(id, agg) := name];
    if Bare(id) in keyed then keyed else keyed[Bare(id) := name]
  }

  function MeasureAliases(ds: Dataset, dims: seq<Id>, shown: seq<SpecMeasure>): map<Field, Alias> {
    if shown == [] then DimAliases(ds, dims)
    else
      var last := shown[|shown| - 1];
      AddMeasureAlias(MeasureAliases(ds, dims, shown[..|shown| - 1]), MeasureOf(ds, last.measure).id, last.agg,
                      M(|dims| + |shown|))
  }

  function ScopePreds(ds: Dataset, scope: Scope): seq<Pred> {
    [IsTenant(ds.tenant, 1)]
    + if ds.station.Some? && !scope.tenantWide then [InStations(ds.station.value, 2)] else []
  }

  function ScopeArgs(ds: Dataset, scope: Scope): seq<Arg> {
    [TenantArg(scope.tenant)]
    + if ds.station.Some? && !scope.tenantWide then [StationsArg(scope.stations)] else []
  }

  function AllArgs(render: Render, ds: Dataset, scope: Scope, filters: seq<SpecFilter>): seq<Arg> {
    if filters == [] then ScopeArgs(ds, scope)
    else
      var last := filters[|filters| - 1];
      AllArgs(render, ds, scope, filters[..|filters| - 1]) + FilterArgs(render, FilterOf(ds, last.filter), last)
  }

  function AllPreds(render: Render, ds: Dataset, scope: Scope, filters: seq<SpecFilter>): seq<Pred> {
    if filters == [] then ScopePreds(ds, scope)
    else
      var before, last := filters[..|filters| - 1], filters[|filters| - 1];
      AllPreds(render, ds, scope, before)
      + [BindFilter(render, FilterOf(ds, last.filter), last, |AllArgs(render, ds, scope, before)|).0]
  }

  /** Sorts on something that is not selected are dropped. */
  function SortKeys(sort: seq<SpecSort>, aliases: map<Field, Alias>): seq<OrderKey> {
    if sort == [] then []
    else
      var rest, last := SortKeys(sort[..|sort| - 1], aliases), sort[|sort| - 1];
      if Bare(last.key) in aliases then rest + [ByAlias(aliases[Bare(last.key)], last.desc)] else rest
  }

  function Ordinals(ns: seq<nat>): (keys: seq<OrderKey>)
    ensures |keys| == |ns| && forall i :: 0 <= i < |ns| ==> keys[i] == ByOrdinal(ns[i])
  {
    seq(|ns|, i requires 0 <= i < |ns| => ByOrdinal(ns[i]))
  }

  function OrderBy(sort: seq<SpecSort>, aliases: map<Field, Alias>, groupBy: seq<nat>): seq<OrderKey> {
    var keys := SortKeys(sort, aliases);
    if keys == [] then Ordinals(groupBy) else keys
  }

  function LimitOf(limit: int): (n: nat)
    ensures 0 < n <= MAX_LIMIT
    ensures 0 < limit ==> n <= limit && (n == limit || n == MAX_LIMIT)
    ensures limit <= 0 ==> n == DEFAULT_LIMIT
  {
    if limit <= 0 then DEFAULT_LIMIT else if limit > MAX_LIMIT then MAX_LIMIT else limit
  }

  function Refused(ds: Dataset, scope: Scope): Option<Error> {
    if scope.tenant == 0 then Some(NoTenant)
    else if ds.station.Some? && !scope.tenantWide && scope.stations == [] then Some(NoStationAccess)
    else if ds.station.None? && !scope.tenantWide then Some(RequiresTenantWide)
    else None
  }

  function QueryOf(render: Render, ds: Dataset, spec: Spec, scope: Scope): Query {
    var dims, shown := spec.dimensions, ShownMeasures(ds, scope, spec.measures);
    Query(SelectList(ds, dims, shown), AllPreds(render, ds, scope, spec.filters), Count1(1, |dims|),
          OrderBy(spec.sort, MeasureAliases(ds, dims, shown), Count1(1, |dims|)), LimitOf(spec.limit))
  }

  function Compile(render: Render, ds: Dataset, spec: Spec, scope: Scope): Result<Compiled, Error> {
    if Refused(ds, scope).Some? then Err(Refused(ds, scope).value)
    else
      var dims, shown := spec.dimensions, ShownMeasures(ds, scope, spec.measures);
      var columns, omitted := ColumnList(ds, dims, shown), Omitted(ds, scope, spec.measures);
      if columns == [] then Ok(Compiled(columns, None, ScopeArgs(ds, scope)[..1], omitted))
      else
        var query, args := QueryOf(render, ds, spec, scope), AllArgs(render, ds, scope, spec.filters);
        Ok(Compiled(columns, Some(query), args, omitted))
  }

  // ---- The composer's loops ----

  method BuildOrderBy(sort: seq<SpecSort>, aliases: map<Field, Alias>, groupBy: seq<nat>) returns (keys: seq<OrderKey>)
    ensures keys == OrderBy(sort, aliases, groupBy)
  {
    keys := [];
    for i := 0 to |sort|
      invariant keys == SortKeys(sort[..i], aliases)
    {
      assert sort[..i + 1][..i] == sort[..i];
      if Bare(sort[i].key) in aliases {
        keys := keys + [ByAlias(aliases[Bare(sort[i].key)], sort[i].desc)];
      }
    }
    assert sort[..|sort|] == sort;
    if keys == [] && |groupBy| > 0 {
      keys := Ordinals(groupBy);
    }
  }

  lemma OneMoreFilter(render: Render, ds: Dataset, scope: Scope, filters: seq<SpecFilter>, i: nat)
    requires i < |filters|
    ensures var args := AllArgs(render, ds, scope, filters[..i]);
      var bound := BindFilter(render, FilterOf(ds, filters[i].filter), filters[i], |args|);
      && AllArgs(render, ds, scope, filters[..i + 1]) == args + bound.1
      && AllPreds(render, ds, scope, filters[..i + 1]) == AllPreds(render, ds, scope, filters[..i]) + [bound.0]
  {
    assert filters[..i + 1][..i] == filters[..i];
  }

  method BuildConditions(render: Render, ds: Dataset, spec: Spec, scope: Scope)
    returns (conditions: seq<Pred>, args: seq<Arg>)
    ensures conditions == AllPreds(render, ds, scope, spec.filters)
    ensures args == AllArgs(render, ds, scope, spec.filters)
  {
    args := [TenantArg(scope.tenant)];
    conditions := [IsTenant(ds.tenant, 1)];
    if ds.station.Some? && !scope.tenantWide {
      args := args + [StationsArg(scope.stations)];
      conditions := conditions + [InStations(ds.station.value, |args|)];
    }
    var filters := spec.filters;
    for i := 0 to |filters|
      invariant conditions == AllPreds(render, ds, scope, filters[..i])
      invariant args == AllArgs(render, ds, scope, filters[..i])
    {
      OneMoreFilter(render, ds, scope, filters, i);
      var bound := BindFilter(render, FilterOf(ds, filters[i].filter), filters[i], |args|);
      args := args + bound.1;
      conditions := conditions + [bound.0];
    }
    assert filters[..|filters|] == filters;
  }

  method SelectDimensions(ds: Dataset, dims: seq<Id>)
    returns (select: seq<Item>, groupBy: seq<nat>, columns: seq<Column>, aliases: map<Field, Alias>)
    ensures select == SelectList(ds, dims, []) && columns == ColumnList(ds, dims, [])
    ensures groupBy == Count1(1, |dims|) && aliases == DimAliases(ds, dims)
  {
    select, groupBy, columns, aliases := [], [], [], map[];
    var ordinal := 0;
    for i := 0 to |dims|
      invariant ordinal == i
      invariant select == SelectList(ds, dims[..i], [])
      invariant columns == ColumnList(ds, dims[..i], [])
      invariant groupBy == Count1(1, i)
      invariant aliases == DimAliases(ds, dims[..i])
    {
      assert dims[..i + 1][..i] == dims[..i];
      var dim := DimOf(ds, dims[i]);
      ordinal := ordinal + 1;
      select := select + [PlainItem(dim.expr, D(ordinal))];
      groupBy := groupBy + [ordinal];
      columns := columns + [Column(Bare(dim.id), true, false, None)];
      aliases := aliases[Bare(dim.id) := D(ordinal)];
    }
    assert dims[..|dims|] == dims;
  }

  /** The select list so far, as the loop carries it. */
  ghost predicate Selected(ds: Dataset, dims: seq<Id>, shown: seq<SpecMeasure>,
                           select: seq<Item>, columns: seq<Column>, aliases: map<Field, Alias>) {
    && select == SelectList(ds, dims, shown)
    && columns == ColumnList(ds, dims, shown)
    && aliases == MeasureAliases(ds, dims, shown)
  }

  lemma SelectedNext(ds: Dataset, dims: seq<Id>, shown: seq<SpecMeasure>, longer: seq<SpecMeasure>, sm: SpecMeasure,
                     ordinal: nat, select: seq<Item>, columns: seq<Column>, aliases: map<Field, Alias>)
    requires Selected(ds, dims, shown, select, columns, aliases)
    requires longer == shown + [sm] && ordinal == |dims| + |longer|
    ensures Selected(ds, dims, longer, select + [MeasureItem(ds, sm, ordinal)], columns + [MeasureColumn(ds, sm)],
                     AddMeasureAlias(aliases, MeasureOf(ds, sm.measure).id, sm.agg, M(ordinal)))
  {
    assert longer[..|longer| - 1] == shown && longer[|longer| - 1] == sm;
  }

  /** Continues the select list with the measures the reader may see. */
  method SelectMeasures(ds: Dataset, scope: Scope, ms: seq<SpecMeasure>, ghost dims: seq<Id>,
                        select0: seq<Item>, columns0: seq<Column>, aliases0: map<Field, Alias>)
    returns (select: seq<Item>, columns: seq<Column>, aliases: map<Field, Alias>, omitted: seq<Id>)
    requires Selected(ds, dims, [], select0, columns0, aliases0)
    ensures Selected(ds, dims, ShownMeasures(ds, scope, ms), select, columns, aliases)
    ensures omitted == Omitted(ds, scope, ms)
  {
    select, columns, aliases, omitted := select0, columns0, aliases0, [];
    var ordinal := |select0|;
    ghost var shown: seq<SpecMeasure> := [];
    for i := 0 to |ms|
      invariant shown == ShownMeasures(ds, scope, ms[..i])
      invariant ordinal == |dims| + |shown|
      invariant Selected(ds, dims, shown, select, columns, aliases)
      invariant omitted == Omitted(ds, scope, ms[..i])
    {
      assert ms[..i + 1][..i] == ms[..i];
      var m := MeasureOf(ds, ms[i].measure);
      if m.sensitive && !scope.allowSensitive {
        omitted := omitted + [m.id];
      } else {
        ordinal := ordinal + 1;
        SelectedNext(ds, dims, shown, shown + [ms[i]], ms[i], ordinal, select, columns, aliases);
        shown := shown + [ms[i]];
        select := select + [MeasureItem(ds, ms[i], ordinal)];
        columns := columns + [Column(Of(m.id, ms[i].agg), false, m.decimal, Some(m.unit))];
        aliases := aliases[Of(m.id, ms[i].agg) := M(ordinal)];
        if Bare(m.id) !in aliases {
          aliases := aliases[Bare(m.id) := M(ordinal)];
        }
      }
    }
    assert ms[..|ms|] == ms;
  }

  method Compose(render: Render, ds: Dataset, spec: Spec, scope: Scope) returns (r: Result<Compiled, Error>)
    ensures r == Compile(render, ds, spec, scope)
  {
    if scope.tenant == 0 {
      return Err(NoTenant);
    }
    if ds.station.Some? && !scope.tenantWide && |scope.stations| == 0 {
      return Err(NoStationAccess);
    }
    if ds.station.None? && !scope.tenantWide {
      return Err(RequiresTenantWide);
    }
    var select, groupBy, columns, aliases := SelectDimensions(ds, spec.dimensions);
    var omitted;
    select, columns, aliases, omitted :=
      SelectMeasures(ds, scope, spec.measures, spec.dimensions, select, columns, aliases);
    if |select| == 0 {
      return Ok(Compiled(columns, None, [TenantArg(scope.tenant)], omitted));
    }
    var conditions, args := BuildConditions(render, ds, spec, scope);
    var orderBy := BuildOrderBy(spec.sort, aliases, groupBy);
    var limit := spec.limit;
    if limit <= 0 {
      limit := DEFAULT_LIMIT;
    }
    if limit > MAX_LIMIT {
      limit := MAX_LIMIT;
    }
    r := Ok(Compiled(columns, Some(Query(select, conditions, groupBy, orderBy, limit)), args, omitted));
  }
}

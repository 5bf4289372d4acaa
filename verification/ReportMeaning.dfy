/** What a compiled query means, and what the report was asked for.

`IsResult` is the query read as SQL: placeholders looked up in the argument list, GROUP BY ordinals
and ORDER BY aliases looked up in the select list.  `IsAnswer` reads the specification directly.
Both are relations, since ties in the order may come out either way.  The theorem is that they agree,
whatever the database's evaluation, comparison, aggregation and ordering do.
 */
module ReportMeaning {
  import opened ReportRegistry
  import opened ReportCompiler
  import DecimalText
  import FigureOrder
  import LikePattern
  import opened Wrappers

  datatype Value = Null | Uuid(id: nat) | Text(s: string) | Number(figure: FigureOrder.Figure)

  type Row = map<TableColumn, Value>

  /** The database's own operations: scalar expressions, equality and order of a column against a bound value,
      characters that ILIKE takes for the same, aggregates, the text cast, and the sort order. */
  datatype Db = Db(scalar: (Expr, Row) -> Value,
                   equal: (Value, Bound) -> bool,
                   less: (Value, Bound) -> bool,
                   more: (Value, Bound) -> bool,
                   same: LikePattern.Same, aggregate: (Agg, multiset<Value>) -> Value,
                   number: nat -> Value, text: Value -> Value,
                   before: (Value, Value) -> bool)

  function Restrict(r: Row, columns: set<TableColumn>): Row {
    map c | c in columns && c in r :: r[c]
  }

  /** An expression sees only the columns it reads. */
  function Eval(db: Db, e: Expr, r: Row): Value {
    db.scalar(e, Restrict(r, Columns(e)))
  }

  function Keep(rows: seq<Row>, p: Row -> bool): (out: seq<Row>)
    ensures forall r :: r in out <==> r in rows && p(r)
  {
    if rows == [] then []
    else
      var rest, last := Keep(rows[..|rows| - 1], p), rows[|rows| - 1];
      if p(last) then rest + [last] else rest
  }

  function Values(db: Db, e: Expr, rows: seq<Row>): multiset<Value> {
    if rows == [] then multiset{} else Values(db, e, rows[..|rows| - 1]) + multiset{Eval(db, e, rows[|rows| - 1])}
  }

  function Totalled(db: Db, agg: Agg, e: Expr, rows: seq<Row>): Value {
    db.text(if agg.Count? then db.number(|rows|) else db.aggregate(agg, Values(db, e, rows)))
  }

  // ---- Orders and limits ----

  /** A column position and whether it sorts downwards. */
  datatype Direction = Direction(column: nat, desc: bool)

  function Cell(row: seq<Value>, i: nat): Value {
    if i < |row| then row[i] else Null
  }

  predicate Precedes(db: Db, a: seq<Value>, b: seq<Value>, order: seq<Direction>) {
    order != [] &&
    var x, y := Cell(a, order[0].column), Cell(b, order[0].column);
    var lower, upper := if order[0].desc then y else x, if order[0].desc then x else y;
    db.before(lower, upper) || (!db.before(upper, lower) && Precedes(db, a, b, order[1..]))
  }

  predicate Ordered(db: Db, rows: seq<seq<Value>>, order: seq<Direction>) {
    forall i, j :: 0 <= i < j < |rows| ==> !Precedes(db, rows[j], rows[i], order)
  }

  /** Each group once. */
  ghost predicate Lists(ks: seq<seq<Value>>, keys: set<seq<Value>>) {
    && (forall i, j :: 0 <= i < j < |ks| ==> ks[i] != ks[j])
    && (forall k :: k in ks <==> k in keys)
  }

  function Cut(rows: seq<seq<Value>>, limit: nat): seq<seq<Value>> {
    if limit < |rows| then rows[..limit] else rows
  }

  /** Some order of the groups, each turned into its row, sorted and cut. */
  ghost predicate Listed(db: Db, keys: set<seq<Value>>, out: seq<Value> -> seq<Value>, order: seq<Direction>,
                         limit: nat, ks: seq<seq<Value>>, result: seq<seq<Value>>) {
    && Lists(ks, keys)
    && Ordered(db, Each(ks, out), order)
    && result == Cut(Each(ks, out), limit)
  }

  function Each(ks: seq<seq<Value>>, out: seq<Value> -> seq<Value>): (rows: seq<seq<Value>>)
    ensures |rows| == |ks| && forall i :: 0 <= i < |ks| ==> rows[i] == out(ks[i])
  {
    seq(|ks|, i requires 0 <= i < |ks| => out(ks[i]))
  }

  // ---- The query, read as SQL ----

  function Resolve(args: seq<Arg>, at: nat): Arg {
    if 1 <= at <= |args| then args[at - 1] else Unbound
  }

  function ResolveAll(args: seq<Arg>, ats: seq<nat>): (out: seq<Arg>)
    ensures |out| == |ats| && forall i :: 0 <= i < |ats| ==> out[i] == Resolve(args, ats[i])
  {
    seq(|ats|, i requires 0 <= i < |ats| => Resolve(args, ats[i]))
  }

  /** `col op $n` is TRUE; a placeholder of the wrong shape makes it fail. */
  predicate Test(db: Db, op: Operator, v: Value, args: seq<Arg>) {
    match op
    case In => |args| == 1 && args[0].ListArg? && exists i :: 0 <= i < |args[0].vs| && db.equal(v, args[0].vs[i])
    case Between =>
      && |args| == 2 && args[0].ScalarArg? && args[1].ScalarArg?
      && (db.more(v, args[0].v) || db.equal(v, args[0].v)) && (db.less(v, args[1].v) || db.equal(v, args[1].v))
    case Like =>
      && |args| == 1 && args[0].ScalarArg? && args[0].v.BoundText?
      && v.Text? && LikePattern.Matches(db.same, v.s, args[0].v.s)
    case Eq => |args| == 1 && args[0].ScalarArg? && db.equal(v, args[0].v)
    case Ne => |args| == 1 && args[0].ScalarArg? && v != Null && !db.equal(v, args[0].v)
    case Gt => |args| == 1 && args[0].ScalarArg? && db.more(v, args[0].v)
    case Gte => |args| == 1 && args[0].ScalarArg? && (db.more(v, args[0].v) || db.equal(v, args[0].v))
    case Lt => |args| == 1 && args[0].ScalarArg? && db.less(v, args[0].v)
    case Lte => |args| == 1 && args[0].ScalarArg? && (db.less(v, args[0].v) || db.equal(v, args[0].v))
  }

  predicate PredHolds(db: Db, args: seq<Arg>, p: Pred, r: Row) {
    match p
    case IsTenant(e, at) => Resolve(args, at).TenantArg? && Eval(db, e, r) == Uuid(Resolve(args, at).id)
    case InStations(e, at) =>
      Resolve(args, at).StationsArg? && Eval(db, e, r).Uuid? && Eval(db, e, r).id in Resolve(args, at).ids
    case Compare(e, op, ats) => Test(db, op, Eval(db, e, r), ResolveAll(args, ats))
  }

  predicate Satisfies(db: Db, args: seq<Arg>, conditions: seq<Pred>, r: Row) {
    forall i :: 0 <= i < |conditions| ==> PredHolds(db, args, conditions[i], r)
  }

  function Where(db: Db, args: seq<Arg>, q: Query): Row -> bool {
    (r: Row) => Satisfies(db, args, q.conditions, r)
  }

  function Ordinal(db: Db, q: Query, n: nat, r: Row): Value {
    if 1 <= n <= |q.select| && q.select[n - 1].PlainItem? then Eval(db, q.select[n - 1].expr, r) else Null
  }

  function GroupKey(db: Db, q: Query, r: Row): (k: seq<Value>)
    ensures |k| == |q.groupBy| && forall i :: 0 <= i < |k| ==> k[i] == Ordinal(db, q, q.groupBy[i], r)
  {
    seq(|q.groupBy|, i requires 0 <= i < |q.groupBy| => Ordinal(db, q, q.groupBy[i], r))
  }

  function InGroup(db: Db, q: Query, k: seq<Value>): Row -> bool {
    (r: Row) => GroupKey(db, q, r) == k
  }

  /** Without GROUP BY there is one group, even over no rows. */
  function QueryKeys(db: Db, q: Query, rows: seq<Row>): set<seq<Value>> {
    if q.groupBy == [] then {[]} else set r | r in rows :: GroupKey(db, q, r)
  }

  function ItemValue(db: Db, item: Item, members: seq<Row>): Value {
    match item
    case PlainItem(e, _) => if members == [] then Null else Eval(db, e, members[0])
    case AggregateItem(a, e, _) => db.text(db.aggregate(a, Values(db, e, members)))
    case CountItem(_) => db.text(db.number(|members|))
  }

  function Output(db: Db, q: Query, rows: seq<Row>, k: seq<Value>): (row: seq<Value>)
    ensures |row| == |q.select|
    ensures forall i :: 0 <= i < |row| ==> row[i] == ItemValue(db, q.select[i], Keep(rows, InGroup(db, q, k)))
  {
    var members := Keep(rows, InGroup(db, q, k));
    seq(|q.select|, i requires 0 <= i < |q.select| => ItemValue(db, q.select[i], members))
  }

  function QueryRow(db: Db, q: Query, rows: seq<Row>): seq<Value> -> seq<Value> {
    (k: seq<Value>) => Output(db, q, rows, k)
  }

  function FindAlias(select: seq<Item>, name: Alias): (n: nat)
    ensures n <= |select|
    ensures n < |select| ==> select[n].name == name
    ensures forall i :: 0 <= i < n ==> select[i].name != name
  {
    if select == [] || select[0].name == name then 0 else 1 + FindAlias(select[1..], name)
  }

  function Resolved(select: seq<Item>, key: OrderKey): Direction {
    match key
    case ByAlias(name, desc) => Direction(FindAlias(select, name), desc)
    case ByOrdinal(n) => Direction(if n > 0 then n - 1 else 0, false)
  }

  function Directions(select: seq<Item>, keys: seq<OrderKey>): (order: seq<Direction>)
    ensures |order| == |keys| && forall i :: 0 <= i < |keys| ==> order[i] == Resolved(select, keys[i])
  {
    seq(|keys|, i requires 0 <= i < |keys| => Resolved(select, keys[i]))
  }

  ghost predicate IsResult(db: Db, q: Query, args: seq<Arg>, table: seq<Row>, result: seq<seq<Value>>) {
    var rows := Keep(table, Where(db, args, q));
    var order := Directions(q.select, q.orderBy);
    exists ks :: Listed(db, QueryKeys(db, q, rows), QueryRow(db, q, rows), order, q.limit, ks, result)
  }

  // ---- The report, read from its specification ----

  /** A report asked of a dataset by a reader. */
  datatype Report = Report(render: Render, ds: Dataset, spec: Spec, scope: Scope)

  predicate InScope(db: Db, ds: Dataset, scope: Scope, r: Row) {
    && Eval(db, ds.tenant, r) == Uuid(scope.tenant)
    && (ds.station.Some? && !scope.tenantWide ==>
          Eval(db, ds.station.value, r).Uuid? && Eval(db, ds.station.value, r).id in scope.stations)
  }

  /** The text says the requested value: a string itself, a whole number in plain digits, a fraction as the renderer
      prints it, a truth value its word. */
  ghost predicate Says(render: Render, s: string, v: Json) {
    match v
    case JString(t) => s == t
    case JNumber(x) => if x == x.Floor as real then DecimalText.IsWholeText(s, x) else s == render(x)
    case JBool(b) => s == if b then "true" else "false"
    case JNull => s == ""
    case JOther(shown) => s == shown
  }

  /** n is x with its places cut off. */
  predicate TowardZero(n: int, x: real) {
    if x >= 0.0 then n as real <= x < n as real + 1.0 else n as real - 1.0 < x <= n as real
  }

  /** The value a request makes on a column of this type: an integer column takes numbers as integers, a boolean one
      truth values, and everything else goes as its text. */
  ghost predicate Requests(render: Render, t: ColumnType, v: Json, b: Bound) {
    match b
    case BoundInt(n) => t.IntType? && v.JNumber? && TowardZero(n, v.x)
    case BoundBool(c) => t.BoolType? && v == JBool(c)
    case BoundText(s) => !(t.IntType? && v.JNumber?) && !(t.BoolType? && v.JBool?) && Says(render, s, v)
  }

  /** The requested value is such. */
  ghost predicate Meets(render: Render, t: ColumnType, v: Json, p: Bound -> bool) {
    exists b :: Requests(render, t, v, b) && p(b)
  }

  // What may be asked of a column's value.

  function EqualTo(db: Db, v: Value): Bound -> bool {
    (b: Bound) => db.equal(v, b)
  }

  function OtherThan(db: Db, v: Value): Bound -> bool {
    (b: Bound) => !db.equal(v, b)
  }

  function Above(db: Db, v: Value): Bound -> bool {
    (b: Bound) => db.more(v, b)
  }

  function NotBelow(db: Db, v: Value): Bound -> bool {
    (b: Bound) => db.more(v, b) || db.equal(v, b)
  }

  function Below(db: Db, v: Value): Bound -> bool {
    (b: Bound) => db.less(v, b)
  }

  function NotAbove(db: Db, v: Value): Bound -> bool {
    (b: Bound) => db.less(v, b) || db.equal(v, b)
  }

  /** What the reader asked of a column: `in` is one of the values, `between` includes both ends, `ne` is a known value
      other than this one, and `like` finds the value somewhere inside. */
  ghost predicate Wanted(db: Db, render: Render, f: Filter, sf: SpecFilter, v: Value) {
    match sf.operator
    case Eq => Meets(render, f.typ, sf.value, EqualTo(db, v))
    case Ne => v != Null && Meets(render, f.typ, sf.value, OtherThan(db, v))
    case Gt => Meets(render, f.typ, sf.value, Above(db, v))
    case Gte => Meets(render, f.typ, sf.value, NotBelow(db, v))
    case Lt => Meets(render, f.typ, sf.value, Below(db, v))
    case Lte => Meets(render, f.typ, sf.value, NotAbove(db, v))
    case In => exists i :: 0 <= i < |sf.values| && Meets(render, f.typ, sf.values[i], EqualTo(db, v))
    case Between =>
      && |sf.values| >= 2
      && Meets(render, f.typ, sf.values[0], NotBelow(db, v))
      && Meets(render, f.typ, sf.values[1], NotAbove(db, v))
    case Like => v.Text? && exists s :: Says(render, s, sf.value) && LikePattern.Occurs(db.same, v.s, s)
  }

  ghost predicate FilterHolds(db: Db, render: Render, ds: Dataset, sf: SpecFilter, r: Row) {
    var f := FilterOf(ds, sf.filter);
    Wanted(db, render, f, sf, Eval(db, f.expr, r))
  }

  ghost predicate Passes(db: Db, render: Render, ds: Dataset, filters: seq<SpecFilter>, r: Row) {
    forall i :: 0 <= i < |filters| ==> FilterHolds(db, render, ds, filters[i], r)
  }

  ghost function Asked(db: Db, rep: Report): Row -> bool {
    (r: Row) => InScope(db, rep.ds, rep.scope, r) && Passes(db, rep.render, rep.ds, rep.spec.filters, r)
  }

  function DimKey(db: Db, ds: Dataset, dims: seq<Id>, r: Row): (k: seq<Value>)
    ensures |k| == |dims| && forall i :: 0 <= i < |dims| ==> k[i] == Eval(db, DimOf(ds, dims[i]).expr, r)
  {
    seq(|dims|, i requires 0 <= i < |dims| => Eval(db, DimOf(ds, dims[i]).expr, r))
  }

  function HasKey(db: Db, ds: Dataset, dims: seq<Id>, k: seq<Value>): Row -> bool {
    (r: Row) => DimKey(db, ds, dims, r) == k
  }

  function AnswerKeys(db: Db, rep: Report, rows: seq<Row>): set<seq<Value>> {
    if rep.spec.dimensions == [] then {[]} else set r | r in rows :: DimKey(db, rep.ds, rep.spec.dimensions, r)
  }

  function Visible(rep: Report): seq<SpecMeasure> {
    ShownMeasures(rep.ds, rep.scope, rep.spec.measures)
  }

  function MeasureValue(db: Db, ds: Dataset, sm: SpecMeasure, members: seq<Row>): Value {
    Totalled(db, sm.agg, MeasureOf(ds, sm.measure).expr, members)
  }

  function AnswerCells(db: Db, rep: Report, rows: seq<Row>, k: seq<Value>): seq<Value> {
    k + MeasureValues(db, rep.ds, Visible(rep), Keep(rows, HasKey(db, rep.ds, rep.spec.dimensions, k)))
  }

  function MeasureValues(db: Db, ds: Dataset, shown: seq<SpecMeasure>, members: seq<Row>): (vs: seq<Value>)
    ensures |vs| == |shown| && forall j :: 0 <= j < |vs| ==> vs[j] == MeasureValue(db, ds, shown[j], members)
  {
    seq(|shown|, j requires 0 <= j < |shown| => MeasureValue(db, ds, shown[j], members))
  }

  function AnswerRow(db: Db, rep: Report, rows: seq<Row>): seq<Value> -> seq<Value> {
    (k: seq<Value>) => AnswerCells(db, rep, rows, k)
  }

  /** The first position of an id, or the length. */
  function IndexOf(ids: seq<Id>, id: Id): (i: nat)
    ensures i <= |ids|
    ensures i < |ids| ==> ids[i] == id
    ensures forall j :: 0 <= j < i ==> ids[j] != id
  {
    if ids == [] then 0
    else
      var i := IndexOf(ids[..|ids| - 1], id);
      if i < |ids| - 1 || ids[|ids| - 1] == id then i else |ids|
  }

  function FirstMeasure(shown: seq<SpecMeasure>, id: Id): (i: nat)
    ensures i <= |shown|
    ensures i < |shown| ==> shown[i].measure == id
    ensures forall j :: 0 <= j < i ==> shown[j].measure != id
  {
    if shown == [] then 0
    else
      var i := FirstMeasure(shown[..|shown| - 1], id);
      if i < |shown| - 1 || shown[|shown| - 1].measure == id then i else |shown|
  }

  /** A sort names a dimension, or else the first visible column of a measure, or else nothing. */
  function SortColumn(dims: seq<Id>, shown: seq<SpecMeasure>, id: Id): Option<nat> {
    if IndexOf(dims, id) < |dims| then Some(IndexOf(dims, id))
    else if FirstMeasure(shown, id) < |shown| then Some(|dims| + FirstMeasure(shown, id))
    else None
  }

  function SortDirections(dims: seq<Id>, shown: seq<SpecMeasure>, sort: seq<SpecSort>): seq<Direction> {
    if sort == [] then []
    else
      var rest, last := SortDirections(dims, shown, sort[..|sort| - 1]), sort[|sort| - 1];
      var c := SortColumn(dims, shown, last.key);
      if c.Some? then rest + [Direction(c.value, last.desc)] else rest
  }

  /** Without an effective sort, the dimensions in turn. */
  function AskedOrder(dims: seq<Id>, shown: seq<SpecMeasure>, sort: seq<SpecSort>): seq<Direction> {
    var order := SortDirections(dims, shown, sort);
    if order == [] then seq(|dims|, i requires 0 <= i < |dims| => Direction(i, false)) else order
  }

  ghost predicate IsAnswer(db: Db, rep: Report, table: seq<Row>, result: seq<seq<Value>>) {
    var rows := Keep(table, Asked(db, rep));
    var order := AskedOrder(rep.spec.dimensions, Visible(rep), rep.spec.sort);
    exists ks :: Listed(db, AnswerKeys(db, rep, rows), AnswerRow(db, rep, rows), order, LimitOf(rep.spec.limit), ks,
                        result)
  }
}

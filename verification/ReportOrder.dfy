/** Reports sorted by a measure come out in the order of its text, which is the order of its figures only where
their leading digits allow it. */
module ReportOrder {
  import opened DecimalText
  import opened FigureOrder
  import opened ReportCompiler
  import opened ReportCorrectness
  import opened ReportMeaning
  import opened ReportRegistry
  import opened ReportSpec
  import opened Wrappers

  /** The database prints figures, sorts text character by character, and sorts figures by value. */
  ghost predicate PrintsFigures(db: Db) {
    forall f :: db.text(Number(f)) == Text(FigureText(f))
  }

  ghost predicate SortsText(db: Db) {
    forall a, b :: db.before(Text(a), Text(b)) <==> TextLess(a, b)
  }

  ghost predicate SortsFigures(db: Db) {
    forall f, g :: db.before(Number(f), Number(g)) <==> Less(f, g)
  }

  // ---- Any two rows ----

  /** The report's only sort is on the measure in this column. */
  predicate SortedBy(rep: Report, column: nat, desc: bool) {
    && |rep.spec.sort| == 1 && rep.spec.sort[0].desc == desc
    && SortColumn(rep.spec.dimensions, Visible(rep), rep.spec.sort[0].key) == Some(column)
    && |rep.spec.dimensions| <= column
  }

  /** The columns a report is sorted by. */
  function TheOrder(rep: Report): seq<Direction> {
    AskedOrder(rep.spec.dimensions, Visible(rep), rep.spec.sort)
  }

  lemma OneSort(rep: Report, column: nat, desc: bool)
    requires SortedBy(rep, column, desc)
    ensures TheOrder(rep) == [Direction(column, desc)]
  {
    var dims, shown, sort := rep.spec.dimensions, Visible(rep), rep.spec.sort;
    assert sort[..0] == [];
    assert SortDirections(dims, shown, sort) == [Direction(column, desc)];
  }

  lemma RowsOrdered(db: Db, rep: Report, table: seq<Row>, result: seq<seq<Value>>, i: nat, j: nat)
    requires IsAnswer(db, rep, table, result) && i < j < |result|
    ensures !Precedes(db, result[j], result[i], TheOrder(rep))
  {
  }

  /** Two different figures stand as the sort asks. */
  predicate InOrder(f: Figure, g: Figure, desc: bool) {
    if desc then Less(g, f) else Less(f, g)
  }

  predicate TextAgrees(f: Figure, g: Figure) {
    if Less(f, g) then OrderKept(f, g) else OrderKept(g, f)
  }

  lemma TextRank(f: Figure, g: Figure, desc: bool)
    requires Less(f, g) || Less(g, f)
    requires if desc then !TextLess(FigureText(f), FigureText(g)) else !TextLess(FigureText(g), FigureText(f))
    ensures InOrder(f, g, desc) <==> TextAgrees(f, g)
  {
    if Less(f, g) {
      TextOrderIs(f, g);
    } else {
      TextOrderIs(g, f);
    }
  }

  /** No key before the n-th tells the two rows apart. */
  ghost predicate TiedBefore(db: Db, a: seq<Value>, b: seq<Value>, order: seq<Direction>, n: nat) {
    forall m :: 0 <= m < n && m < |order| ==> Tied(db, a, b, order[m].column)
  }

  predicate Tied(db: Db, a: seq<Value>, b: seq<Value>, column: nat) {
    !db.before(Cell(a, column), Cell(b, column)) && !db.before(Cell(b, column), Cell(a, column))
  }

  /** The n-th key ranks the row first. */
  predicate RanksFirst(db: Db, a: seq<Value>, b: seq<Value>, d: Direction) {
    var x, y := Cell(a, d.column), Cell(b, d.column);
    if d.desc then db.before(y, x) else db.before(x, y)
  }

  lemma {:induction false} FirstSeparates(db: Db, a: seq<Value>, b: seq<Value>, order: seq<Direction>, n: nat)
    requires n < |order| && TiedBefore(db, a, b, order, n) && RanksFirst(db, a, b, order[n])
    ensures Precedes(db, a, b, order)
    decreases n
  {
    if n > 0 {
      var rest := order[1..];
      forall m | 0 <= m < n - 1 && m < |rest| ensures Tied(db, a, b, rest[m].column) {
        assert rest[m] == order[m + 1];
      }
      FirstSeparates(db, a, b, rest, n - 1);
      assert Tied(db, a, b, order[0].column);
    }
  }

  /** In every result of a report, two rows that the first keys tie on and the next key's figures tell apart stand in
      the order asked for if and only if text order agrees with the order of those figures. */
  lemma MeasureSortIsText(db: Db, rep: Report, table: seq<Row>, result: seq<seq<Value>>, n: nat, i: nat, j: nat,
                          f: Figure, g: Figure)
    requires SortsText(db) && ValidSpec(rep.ds, rep.spec)
    requires IsResult(db, TheQuery(rep), TheArgs(rep), table, result) && i < j < |result|
    requires n < |TheOrder(rep)| && TiedBefore(db, result[j], result[i], TheOrder(rep), n)
    requires Cell(result[i], TheOrder(rep)[n].column) == Text(FigureText(f))
    requires Cell(result[j], TheOrder(rep)[n].column) == Text(FigureText(g))
    requires Less(f, g) || Less(g, f)
    ensures InOrder(f, g, TheOrder(rep)[n].desc) <==> TextAgrees(f, g)
  {
    CompilationIsCorrect(db, rep, table, result);
    RowsOrdered(db, rep, table, result, i, j);
    if RanksFirst(db, result[j], result[i], TheOrder(rep)[n]) {
      FirstSeparates(db, result[j], result[i], TheOrder(rep), n);
    }
    TextRank(f, g, TheOrder(rep)[n].desc);
  }

  lemma OnePrecedes(db: Db, a: seq<Value>, b: seq<Value>, column: nat, desc: bool)
    ensures var x, y := Cell(a, column), Cell(b, column);
      Precedes(db, a, b, [Direction(column, desc)]) <==> if desc then db.before(y, x) else db.before(x, y)
  {
    assert [Direction(column, desc)][1..] == [];
  }

  // ---- The whole result ----

  /** The aggregate itself, before it is cast to text. */
  function RawValue(db: Db, ds: Dataset, sm: SpecMeasure, members: seq<Row>): Value {
    if sm.agg.Count? then db.number(|members|)
      else db.aggregate(sm.agg, Values(db, MeasureOf(ds, sm.measure).expr, members))
  }

  function RawValues(db: Db, ds: Dataset, shown: seq<SpecMeasure>, members: seq<Row>): (vs: seq<Value>)
    ensures |vs| == |shown| && forall j :: 0 <= j < |vs| ==> vs[j] == RawValue(db, ds, shown[j], members)
  {
    seq(|shown|, j requires 0 <= j < |shown| => RawValue(db, ds, shown[j], members))
  }

  function Members(db: Db, rep: Report, rows: seq<Row>, k: seq<Value>): seq<Row> {
    Keep(rows, HasKey(db, rep.ds, rep.spec.dimensions, k))
  }

  function RawRow(db: Db, rep: Report, rows: seq<Row>): seq<Value> -> seq<Value> {
    (k: seq<Value>) => k + RawValues(db, rep.ds, Visible(rep), Members(db, rep, rows, k))
  }

  /** The answer with its groups ranked by the aggregates themselves. */
  ghost predicate IsRanked(db: Db, rep: Report, table: seq<Row>, result: seq<seq<Value>>) {
    var rows := Keep(table, Asked(db, rep));
    exists ks :: Ranked(db, rep, rows, ks, result)
  }

  ghost predicate Ranked(db: Db, rep: Report, rows: seq<Row>, ks: seq<seq<Value>>, result: seq<seq<Value>>) {
    && Lists(ks, AnswerKeys(db, rep, rows))
    && Ordered(db, Each(ks, RawRow(db, rep, rows)), TheOrder(rep))
    && result == Cut(Each(ks, AnswerRow(db, rep, rows)), LimitOf(rep.spec.limit))
  }

  /** Of equal figures the texts are equal too, and of different ones they stand in order. */
  predicate Faithful(f: Figure, g: Figure) {
    if Less(f, g) || Less(g, f) then TextAgrees(f, g) else f == g
  }

  lemma FaithfulOrder(db: Db, f: Figure, g: Figure)
    requires PrintsFigures(db) && SortsText(db) && SortsFigures(db) && Faithful(f, g)
    ensures db.before(db.text(Number(f)), db.text(Number(g))) <==> db.before(Number(f), Number(g))
  {
    assert db.text(Number(f)) == Text(FigureText(f)) && db.text(Number(g)) == Text(FigureText(g));
    if Less(f, g) {
      TextOrderIs(f, g);
    } else if Less(g, f) {
      TextOrderIs(g, f);
    } else {
      TextLessOneWay(FigureText(f), FigureText(g));
    }
  }

  /** In the columns sorted by the two rows compare alike. */
  ghost predicate CompareAlike(db: Db, a: seq<Value>, b: seq<Value>, a': seq<Value>, b': seq<Value>,
                               order: seq<Direction>) {
    forall i :: 0 <= i < |order| ==> AlikeAt(db, a, b, a', b', order[i].column)
  }

  predicate AlikeAt(db: Db, a: seq<Value>, b: seq<Value>, a': seq<Value>, b': seq<Value>, c: nat) {
    && (db.before(Cell(a, c), Cell(b, c)) <==> db.before(Cell(a', c), Cell(b', c)))
    && (db.before(Cell(b, c), Cell(a, c)) <==> db.before(Cell(b', c), Cell(a', c)))
  }

  lemma {:induction false} PrecedesAlike(db: Db, a: seq<Value>, b: seq<Value>, a': seq<Value>, b': seq<Value>,
                                         order: seq<Direction>)
    requires CompareAlike(db, a, b, a', b', order)
    ensures Precedes(db, a, b, order) <==> Precedes(db, a', b', order)
  {
    if order != [] {
      var rest := order[1..];
      forall i | 0 <= i < |rest| ensures AlikeAt(db, a, b, a', b', rest[i].column) {
        assert rest[i] == order[i + 1];
      }
      PrecedesAlike(db, a, b, a', b', rest);
      assert AlikeAt(db, a, b, a', b', order[0].column);
    }
  }

  predicate FaithfulPair(x: Value, y: Value) {
    x.Number? && y.Number? && Faithful(x.figure, y.figure)
  }

  /** The measures sorted by, which follow n dimensions, hold figures that text order ranks faithfully. */
  predicate FaithfulColumns(ra: seq<Value>, rb: seq<Value>, n: nat, order: seq<Direction>) {
    && |ra| == |rb|
    && (forall i :: 0 <= i < |order| && n <= order[i].column < n + |ra| ==>
          FaithfulPair(ra[order[i].column - n], rb[order[i].column - n]))
  }

  /** So in any two groups. */
  ghost predicate FaithfulGroups(db: Db, rep: Report, rows: seq<Row>) {
    forall k, l :: k in AnswerKeys(db, rep, rows) && l in AnswerKeys(db, rep, rows) ==>
      FaithfulColumns(RawValues(db, rep.ds, Visible(rep), Members(db, rep, rows, k)),
                      RawValues(db, rep.ds, Visible(rep), Members(db, rep, rows, l)),
                      |rep.spec.dimensions|, TheOrder(rep))
  }

  function Texts(db: Db, vs: seq<Value>): (out: seq<Value>)
    ensures |out| == |vs| && forall j :: 0 <= j < |vs| ==> out[j] == db.text(vs[j])
  {
    seq(|vs|, j requires 0 <= j < |vs| => db.text(vs[j]))
  }

  lemma CellsAreTexts(db: Db, ds: Dataset, shown: seq<SpecMeasure>, members: seq<Row>)
    ensures MeasureValues(db, ds, shown, members) == Texts(db, RawValues(db, ds, shown, members))
  {
    var a, b := MeasureValues(db, ds, shown, members), Texts(db, RawValues(db, ds, shown, members));
    forall j | 0 <= j < |a| ensures a[j] == b[j] {
      assert RawValues(db, ds, shown, members)[j] == RawValue(db, ds, shown[j], members);
    }
  }

  lemma CellAfter(k: seq<Value>, vs: seq<Value>, c: nat)
    ensures Cell(k + vs, c) == if c < |k| then k[c] else Cell(vs, c - |k|)
  {
  }

  /** Two values and their texts sort alike. */
  predicate RanksAlike(db: Db, x: Value, y: Value) {
    && (db.before(db.text(x), db.text(y)) <==> db.before(x, y))
    && (db.before(db.text(y), db.text(x)) <==> db.before(y, x))
  }

  predicate ColumnsRank(db: Db, ra: seq<Value>, rb: seq<Value>, n: nat, order: seq<Direction>) {
    && |ra| == |rb|
    && (forall i :: 0 <= i < |order| && n <= order[i].column < n + |ra| ==>
          RanksAlike(db, ra[order[i].column - n], rb[order[i].column - n]))
  }

  lemma PairRanks(db: Db, x: Value, y: Value)
    requires PrintsFigures(db) && SortsText(db) && SortsFigures(db) && FaithfulPair(x, y) && FaithfulPair(y, x)
    ensures RanksAlike(db, x, y)
  {
    FaithfulOrder(db, x.figure, y.figure);
    FaithfulOrder(db, y.figure, x.figure);
  }

  lemma FaithfulRank(db: Db, ra: seq<Value>, rb: seq<Value>, n: nat, order: seq<Direction>)
    requires PrintsFigures(db) && SortsText(db) && SortsFigures(db)
    requires FaithfulColumns(ra, rb, n, order) && FaithfulColumns(rb, ra, n, order)
    ensures ColumnsRank(db, ra, rb, n, order)
  {
    forall i | 0 <= i < |order| && n <= order[i].column < n + |ra|
      ensures RanksAlike(db, ra[order[i].column - n], rb[order[i].column - n])
    {
      PairRanks(db, ra[order[i].column - n], rb[order[i].column - n]);
    }
  }

  lemma ColumnAlike(db: Db, k: seq<Value>, l: seq<Value>, ra: seq<Value>, rb: seq<Value>, c: nat)
    requires |k| == |l| && |ra| == |rb|
    requires |k| <= c < |k| + |ra| ==> RanksAlike(db, ra[c - |k|], rb[c - |k|])
    ensures AlikeAt(db, k + Texts(db, ra), l + Texts(db, rb), k + ra, l + rb, c)
  {
    CellAfter(k, Texts(db, ra), c);
    CellAfter(l, Texts(db, rb), c);
    CellAfter(k, ra, c);
    CellAfter(l, rb, c);
  }

  lemma ColumnsAlike(db: Db, k: seq<Value>, l: seq<Value>, ra: seq<Value>, rb: seq<Value>, order: seq<Direction>)
    requires |k| == |l| && ColumnsRank(db, ra, rb, |k|, order)
    ensures CompareAlike(db, k + Texts(db, ra), l + Texts(db, rb), k + ra, l + rb, order)
  {
    var ta, tb := Texts(db, ra), Texts(db, rb);
    forall i | 0 <= i < |order| ensures AlikeAt(db, k + ta, l + tb, k + ra, l + rb, order[i].column) {
      ColumnAlike(db, k, l, ra, rb, order[i].column);
    }
  }

  lemma RowsAlike(db: Db, rep: Report, rows: seq<Row>, k: seq<Value>, l: seq<Value>)
    requires PrintsFigures(db) && SortsText(db) && SortsFigures(db) && FaithfulGroups(db, rep, rows)
    requires k in AnswerKeys(db, rep, rows) && l in AnswerKeys(db, rep, rows)
    ensures Precedes(db, AnswerRow(db, rep, rows)(k), AnswerRow(db, rep, rows)(l), TheOrder(rep))
       <==> Precedes(db, RawRow(db, rep, rows)(k), RawRow(db, rep, rows)(l), TheOrder(rep))
  {
    var shown, mk, ml := Visible(rep), Members(db, rep, rows, k), Members(db, rep, rows, l);
    var ra, rb := RawValues(db, rep.ds, shown, mk), RawValues(db, rep.ds, shown, ml);
    CellsAreTexts(db, rep.ds, shown, mk);
    CellsAreTexts(db, rep.ds, shown, ml);
    FaithfulRank(db, ra, rb, |k|, TheOrder(rep));
    ColumnsAlike(db, k, l, ra, rb, TheOrder(rep));
    PrecedesAlike(db, k + Texts(db, ra), l + Texts(db, rb), k + ra, l + rb, TheOrder(rep));
  }

  lemma SameRanking(db: Db, rep: Report, rows: seq<Row>, ks: seq<seq<Value>>)
    requires PrintsFigures(db) && SortsText(db) && SortsFigures(db) && FaithfulGroups(db, rep, rows)
    requires Lists(ks, AnswerKeys(db, rep, rows))
    ensures Ordered(db, Each(ks, AnswerRow(db, rep, rows)), TheOrder(rep))
       <==> Ordered(db, Each(ks, RawRow(db, rep, rows)), TheOrder(rep))
  {
    var a, b, order := Each(ks, AnswerRow(db, rep, rows)), Each(ks, RawRow(db, rep, rows)), TheOrder(rep);
    forall i, j | 0 <= i < j < |ks| ensures Precedes(db, a[j], a[i], order) <==> Precedes(db, b[j], b[i], order) {
      assert ks[i] in ks && ks[j] in ks;
      RowsAlike(db, rep, rows, ks[j], ks[i]);
    }
  }

  /** Where in the columns sorted by any two groups' figures are faithful, the results are exactly the answers ranked by
      value, cut included. */
  lemma FaithfulResult(db: Db, rep: Report, table: seq<Row>, result: seq<seq<Value>>)
    requires PrintsFigures(db) && SortsText(db) && SortsFigures(db) && ValidSpec(rep.ds, rep.spec)
    requires FaithfulGroups(db, rep, Keep(table, Asked(db, rep)))
    ensures IsResult(db, TheQuery(rep), TheArgs(rep), table, result) <==> IsRanked(db, rep, table, result)
  {
    CompilationIsCorrect(db, rep, table, result);
    var rows := Keep(table, Asked(db, rep));
    var order := AskedOrder(rep.spec.dimensions, Visible(rep), rep.spec.sort);
    var n := LimitOf(rep.spec.limit);
    forall ks
      ensures Listed(db, AnswerKeys(db, rep, rows), AnswerRow(db, rep, rows), order, n, ks, result)
         <==> Ranked(db, rep, rows, ks, result)
    {
      if Lists(ks, AnswerKeys(db, rep, rows)) {
        SameRanking(db, rep, rows, ks);
      }
    }
  }

  /** A report sorted by dimensions only is ranked by value, whatever its measures hold. */
  lemma DimensionSortIsRanked(db: Db, rep: Report, table: seq<Row>, result: seq<seq<Value>>)
    requires PrintsFigures(db) && SortsText(db) && SortsFigures(db) && ValidSpec(rep.ds, rep.spec)
    requires forall i :: 0 <= i < |TheOrder(rep)| ==> TheOrder(rep)[i].column < |rep.spec.dimensions|
    ensures IsResult(db, TheQuery(rep), TheArgs(rep), table, result) <==> IsRanked(db, rep, table, result)
  {
    FaithfulResult(db, rep, table, result);
  }

  // ---- Nine and ten shillings ----

  /** Numbers are read as they are, text columns as their text, and the sum of one value is that value. */
  ghost predicate ReadsPlainly(db: Db) {
    && (forall c, r: Row :: c in r ==> db.scalar(Expr(Plain, c), r) == r[c])
    && (forall c, r: Row :: c in r && r[c].Text? ==> db.scalar(Expr(AsText, c), r) == r[c])
    && (forall v :: db.aggregate(Sum, multiset{v}) == v)
  }

  lemma ReadColumn(db: Db, form: Form, c: TableColumn, r: Row)
    requires ReadsPlainly(db) && c in r && (form.Plain? || (form.AsText? && r[c].Text?))
    ensures Eval(db, Expr(form, c), r) == r[c]
  {
    assert c in Restrict(r, {c}) && Restrict(r, {c})[c] == r[c];
  }

  /** One text dimension, one sum, no filters, a tenant-wide reader. */
  predicate Simple(rep: Report, dim: TableColumn, total: TableColumn) {
    && |rep.spec.dimensions| == 1 && DimOf(rep.ds, rep.spec.dimensions[0]).expr == Expr(AsText, dim)
    && |Visible(rep)| == 1 && Visible(rep)[0].agg == Sum
    && MeasureOf(rep.ds, Visible(rep)[0].measure).expr == Expr(Plain, total)
    && rep.spec.filters == [] && rep.ds.tenant == Expr(Plain, TenantIdCol) && rep.scope.tenantWide
  }

  predicate Holds(r: Row, rep: Report, dim: TableColumn, total: TableColumn, key: string, f: Figure) {
    && TenantIdCol in r && r[TenantIdCol] == Uuid(rep.scope.tenant)
    && dim in r && r[dim] == Text(key) && total in r && r[total] == Number(f)
  }

  lemma RowIsAsked(db: Db, rep: Report, dim: TableColumn, total: TableColumn, r: Row, key: string, f: Figure)
    requires ReadsPlainly(db) && Simple(rep, dim, total) && Holds(r, rep, dim, total, key, f)
    ensures Asked(db, rep)(r) && DimKey(db, rep.ds, rep.spec.dimensions, r) == [Text(key)]
  {
    ReadColumn(db, Plain, TenantIdCol, r);
    ReadColumn(db, AsText, dim, r);
  }

  lemma KeepTwo(a: Row, b: Row, p: Row -> bool)
    ensures Keep([a, b], p) == (if p(a) then [a] else []) + (if p(b) then [b] else [])
  {
    var two, one := [a, b], [a];
    assert two[..1] == one && one[..0] == [];
    assert Keep(one, p) == if p(a) then [a] else [];
  }

  lemma OneMember(db: Db, rep: Report, dim: TableColumn, total: TableColumn, rows: seq<Row>, r: Row, key: string,
                  f: Figure)
    requires ReadsPlainly(db) && PrintsFigures(db) && Simple(rep, dim, total) && Holds(r, rep, dim, total, key, f)
    requires Keep(rows, HasKey(db, rep.ds, rep.spec.dimensions, [Text(key)])) == [r]
    ensures AnswerRow(db, rep, rows)([Text(key)]) == [Text(key), Text(FigureText(f))]
  {
    SumOfOne(db, rep.ds, Visible(rep)[0], total, r, f);
    assert MeasureValues(db, rep.ds, Visible(rep), [r]) == [Text(FigureText(f))];
  }

  lemma SumOfOne(db: Db, ds: Dataset, sm: SpecMeasure, total: TableColumn, r: Row, f: Figure)
    requires ReadsPlainly(db) && PrintsFigures(db) && sm.agg == Sum
        && MeasureOf(ds, sm.measure).expr == Expr(Plain, total)
    requires total in r && r[total] == Number(f)
    ensures MeasureValue(db, ds, sm, [r]) == Text(FigureText(f))
  {
    ReadColumn(db, Plain, total, r);
    assert [r][..0] == [];
    assert Values(db, Expr(Plain, total), [r]) == multiset{Number(f)};
    assert db.text(Number(f)) == Text(FigureText(f));
  }

  /** Two rows, each the only one of its group. */
  lemma TwoGroups(db: Db, rep: Report, dim: TableColumn, total: TableColumn, a: Row, b: Row,
                  ka: string, kb: string, f: Figure, g: Figure)
    requires ReadsPlainly(db) && PrintsFigures(db) && Simple(rep, dim, total) && ka != kb
    requires Holds(a, rep, dim, total, ka, f) && Holds(b, rep, dim, total, kb, g)
    ensures Keep([a, b], Asked(db, rep)) == [a, b]
    ensures AnswerKeys(db, rep, [a, b]) == {[Text(ka)], [Text(kb)]}
    ensures AnswerRow(db, rep, [a, b])([Text(ka)]) == [Text(ka), Text(FigureText(f))]
    ensures AnswerRow(db, rep, [a, b])([Text(kb)]) == [Text(kb), Text(FigureText(g))]
  {
    RowIsAsked(db, rep, dim, total, a, ka, f);
    RowIsAsked(db, rep, dim, total, b, kb, g);
    BothKept(a, b, Asked(db, rep));
    EachAlone(db, rep.ds, rep.spec.dimensions, a, b, [Text(ka)], [Text(kb)]) by {
      assert [Text(ka)][0] != [Text(kb)][0];
    }
    OneMember(db, rep, dim, total, [a, b], a, ka, f);
    OneMember(db, rep, dim, total, [a, b], b, kb, g);
    TwoKeys(db, rep, a, b);
  }

  lemma BothKept(a: Row, b: Row, p: Row -> bool)
    requires p(a) && p(b)
    ensures Keep([a, b], p) == [a, b]
  {
    KeepTwo(a, b, p);
  }

  lemma EachAlone(db: Db, ds: Dataset, dims: seq<Id>, a: Row, b: Row, x: seq<Value>, y: seq<Value>)
    requires x != y && DimKey(db, ds, dims, a) == x && DimKey(db, ds, dims, b) == y
    ensures Keep([a, b], HasKey(db, ds, dims, x)) == [a] && Keep([a, b], HasKey(db, ds, dims, y)) == [b]
  {
    KeepTwo(a, b, HasKey(db, ds, dims, x));
    KeepTwo(a, b, HasKey(db, ds, dims, y));
  }

  lemma TwoKeys(db: Db, rep: Report, a: Row, b: Row)
    requires rep.spec.dimensions != []
    ensures var dims := rep.spec.dimensions;
      AnswerKeys(db, rep, [a, b]) == {DimKey(db, rep.ds, dims, a), DimKey(db, rep.ds, dims, b)}
  {
    assert forall r :: r in [a, b] <==> r == a || r == b;
  }

  lemma TwoListed(db: Db, ka: seq<Value>, kb: seq<Value>, out: seq<Value> -> seq<Value>, order: seq<Direction>,
                  limit: nat, ks: seq<seq<Value>>, result: seq<seq<Value>>)
    requires ka != kb && limit >= 2
    requires Precedes(db, out(kb), out(ka), order) && !Precedes(db, out(ka), out(kb), order)
    ensures Listed(db, {ka, kb}, out, order, limit, ks, result) <==> ks == [kb, ka] && result == [out(kb), out(ka)]
  {
    if Lists(ks, {ka, kb}) {
      TwoOrders(ka, kb, ks);
      if ks == [ka, kb] {
        assert Precedes(db, Each(ks, out)[1], Each(ks, out)[0], order);
      } else {
        assert Each(ks, out) == [out(kb), out(ka)];
      }
    }
    if ks == [kb, ka] {
      assert Each(ks, out) == [out(kb), out(ka)];
      assert forall k :: k in ks <==> k == ka || k == kb;
    }
  }

  lemma TwoOrders(ka: seq<Value>, kb: seq<Value>, ks: seq<seq<Value>>)
    requires ka != kb && Lists(ks, {ka, kb})
    ensures ks == [ka, kb] || ks == [kb, ka]
  {
    assert ka in ks && kb in ks;
    var i :| 0 <= i < |ks| && ks[i] == ka;
    var j :| 0 <= j < |ks| && ks[j] == kb;
    if |ks| > 2 {
      AtOneOfTwo(ka, kb, ks, i, j, 0);
      AtOneOfTwo(ka, kb, ks, i, j, 1);
      AtOneOfTwo(ka, kb, ks, i, j, 2);
      assert false;
    }
  }

  lemma AtOneOfTwo(ka: seq<Value>, kb: seq<Value>, ks: seq<seq<Value>>, i: nat, j: nat, n: nat)
    requires Lists(ks, {ka, kb}) && i < |ks| && ks[i] == ka && j < |ks| && ks[j] == kb && n < |ks|
    ensures n == i || n == j
  {
    assert ks[n] in ks;
  }

  const Nine := Figure(900, 2)
  const Ten := Figure(1000, 2)

  lemma TenSortsFirst()
    ensures TextLess(FigureText(Ten), FigureText(Nine)) && !TextLess(FigureText(Nine), FigureText(Ten))
  {
    assert Pow10(2) == 100 by {
      assert Pow10(1) == 10 * Pow10(0);
    }
    assert Whole(Nine) == 9 && Whole(Ten) == 10;
    assert |NatText(9)| == 1 && |NatText(10)| == 2 && Leading(10, 1) == 1;
    TextOrderIs(Nine, Ten);
  }

  /** Gross revenue by day, smallest first, for a tenant-wide reader. */
  function RevenueByDay(render: Render): Report {
    Report(render, RevenueDays(),
           Spec([BusinessDate], [SpecMeasure(GrossRevenue, Sum)], [], [SpecSort(GrossRevenue, false)], 0),
           Scope(1, true, [], false))
  }

  lemma RevenueFields()
    ensures DimById(RevenueDays().dimensions, BusinessDate)
        == Some(Dimension(BusinessDate, Expr(AsText, BusinessDateCol)))
    ensures MeasureById(RevenueDays().measures, GrossRevenue)
         == Some(Measure(GrossRevenue, Expr(Plain, GrossRevenueCol), MoneyAggs, true, Shillings, false))
  {
    assert RevenueDays().dimensions[0].id == BusinessDate && RevenueDays().measures[0].id == GrossRevenue;
  }

  lemma RevenueIsVisible(render: Render)
    ensures Visible(RevenueByDay(render)) == [SpecMeasure(GrossRevenue, Sum)]
  {
    RevenueFields();
    assert RevenueByDay(render).spec.measures[..0] == [];
  }

  lemma RevenueSort(dims: seq<Id>, shown: seq<SpecMeasure>)
    requires dims == [BusinessDate] && shown == [SpecMeasure(GrossRevenue, Sum)]
    ensures SortColumn(dims, shown, GrossRevenue) == Some(1)
  {
    assert IndexOf(dims, GrossRevenue) == 1 && FirstMeasure(shown, GrossRevenue) == 0;
  }

  lemma RevenueSpecIsValid(ds: Dataset, spec: Spec)
    requires spec == Spec([BusinessDate], [SpecMeasure(GrossRevenue, Sum)], [], [SpecSort(GrossRevenue, false)], 0)
    requires DimById(ds.dimensions, BusinessDate).Some? && MeasureById(ds.measures, GrossRevenue).Some?
    requires Sum in MeasureById(ds.measures, GrossRevenue).value.aggs
    ensures ValidSpec(ds, spec)
  {
    assert MeasureOk(ds, spec.measures[0]);
    assert spec.measures[0] in spec.measures && SortOk(spec, spec.sort[0]);
  }

  lemma RevenueByDayIsValid(render: Render)
    ensures var rep := RevenueByDay(render);
      && ValidSpec(rep.ds, rep.spec) && Simple(rep, BusinessDateCol, GrossRevenueCol) && SortedBy(rep, 1, false)
      && rep.spec.limit == 0 && rep.scope.tenant == 1
  {
    var rep := RevenueByDay(render);
    RevenueFields();
    RevenueIsVisible(render);
    RevenueSort(rep.spec.dimensions, Visible(rep));
    assert MoneyAggs[0] == Sum;
    RevenueSpecIsValid(rep.ds, rep.spec);
  }

  function Day(date: string, gross: Figure): Row {
    map[TenantIdCol := Uuid(1), BusinessDateCol := Text(date), GrossRevenueCol := Number(gross)]
  }

  /** Nine shillings one day and ten another, smallest first: the only result puts the ten before the nine. */
  lemma TenBeforeNine(db: Db, render: Render, d: string, e: string, result: seq<seq<Value>>)
    requires ReadsPlainly(db) && PrintsFigures(db) && SortsText(db) && d != e
    ensures var rep := RevenueByDay(render);
      IsResult(db, TheQuery(rep), TheArgs(rep), [Day(d, Nine), Day(e, Ten)], result)
      <==> result == [[Text(e), Text(FigureText(Ten))], [Text(d), Text(FigureText(Nine))]]
  {
    RevenueByDayIsValid(render);
    TenLeads(db, RevenueByDay(render), d, e, result);
  }

  lemma DayHolds(rep: Report, d: string, f: Figure)
    requires rep.scope.tenant == 1
    ensures Holds(Day(d, f), rep, BusinessDateCol, GrossRevenueCol, d, f)
  {
  }

  lemma TenLeads(db: Db, rep: Report, d: string, e: string, result: seq<seq<Value>>)
    requires ReadsPlainly(db) && PrintsFigures(db) && SortsText(db) && d != e && rep.spec.limit == 0
        && rep.scope.tenant == 1
    requires ValidSpec(rep.ds, rep.spec) && Simple(rep, BusinessDateCol, GrossRevenueCol) && SortedBy(rep, 1, false)
    ensures IsResult(db, TheQuery(rep), TheArgs(rep), [Day(d, Nine), Day(e, Ten)], result)
       <==> result == [[Text(e), Text(FigureText(Ten))], [Text(d), Text(FigureText(Nine))]]
  {
    TenSortsFirst();
    DayHolds(rep, d, Nine);
    DayHolds(rep, e, Ten);
    SmallerLast(db, rep, BusinessDateCol, GrossRevenueCol, Day(d, Nine), Day(e, Ten), d, e, Nine, Ten, result);
  }

  /** Where the larger figure's text sorts first, so does its group. */
  lemma SmallerLast(db: Db, rep: Report, dim: TableColumn, total: TableColumn, a: Row, b: Row,
                    ka: string, kb: string, f: Figure, g: Figure, result: seq<seq<Value>>)
    requires ReadsPlainly(db) && PrintsFigures(db) && SortsText(db) && ka != kb
    requires ValidSpec(rep.ds, rep.spec) && Simple(rep, dim, total) && SortedBy(rep, 1, false) && rep.spec.limit == 0
    requires Holds(a, rep, dim, total, ka, f) && Holds(b, rep, dim, total, kb, g)
    requires TextLess(FigureText(g), FigureText(f)) && !TextLess(FigureText(f), FigureText(g))
    ensures IsResult(db, TheQuery(rep), TheArgs(rep), [a, b], result)
       <==> result == [[Text(kb), Text(FigureText(g))], [Text(ka), Text(FigureText(f))]]
  {
    var rows, order, x, y := [a, b], [Direction(1, false)], [Text(ka)], [Text(kb)];
    var out := AnswerRow(db, rep, rows);
    CompilationIsCorrect(db, rep, rows, result);
    TwoGroups(db, rep, dim, total, a, b, ka, kb, f, g);
    OneSort(rep, 1, false);
    OnePrecedes(db, out(y), out(x), 1, false);
    OnePrecedes(db, out(x), out(y), 1, false);
    assert x[0] != y[0];
    OnlyListing(db, x, y, out, order, LimitOf(0), result);
  }

  lemma OnlyListing(db: Db, ka: seq<Value>, kb: seq<Value>, out: seq<Value> -> seq<Value>, order: seq<Direction>,
                    limit: nat, result: seq<seq<Value>>)
    requires ka != kb && limit >= 2
    requires Precedes(db, out(kb), out(ka), order) && !Precedes(db, out(ka), out(kb), order)
    ensures (exists ks :: Listed(db, {ka, kb}, out, order, limit, ks, result)) <==> result == [out(kb), out(ka)]
  {
    forall ks ensures Listed(db, {ka, kb}, out, order, limit, ks, result)
                 <==> ks == [kb, ka] && result == [out(kb), out(ka)]
    {
      TwoListed(db, ka, kb, out, order, limit, ks, result);
    }
    if result == [out(kb), out(ka)] {
      assert Listed(db, {ka, kb}, out, order, limit, [kb, ka], result);
    }
  }
}

/** One tank's ledger and its chain of sealed reconciliations, run serially.

Each seal compares the book figure, summed forward from an anchor, with the closing dip, posts the
difference as a write-off, and becomes the anchor of the next period.  Litres are in thousandths.
`OtherTank` stands for movements elsewhere, which use up `seq` numbers.
 */
module SealChain {
  import opened Numeric
  import opened StockLedger
  import opened Wrappers

  datatype Error = BadNumber | NoOpening | OpeningExists | MovementNotFound | AlreadyReversed | DraftNotFound
                 | AlreadySealed | OverTolerance

  datatype Source = Manual | Reconciliation | Correction

  datatype Movement = Movement(num: nat, kind: Kind, source: Source, litres: int, reversed: bool)

  datatype Figures = Figures(openingBook: int, deliveries: int, sales: int, adjustments: int,
                             closingBook: int, closingPhysical: int, tolerance: real, throughSeq: nat)

  datatype Recon = Recon(sealed: bool, figures: Figures)

  datatype Book = Book(rows: seq<Movement>, nextSeq: nat, recons: map<nat, Recon>)

  /** Where the book figure starts: an opening figure and the `seq` it already includes. */
  datatype Anchor = Anchor(litres: int, upTo: nat)

  const Fresh := Book([], 1, map[])

  // ---- Sums ----

  function Sum(rows: seq<Movement>, p: Movement -> bool): int {
    if rows == [] then 0
    else Sum(rows[..|rows| - 1], p) + (if p(rows[|rows| - 1]) then rows[|rows| - 1].litres else 0)
  }

  function Every(): Movement -> bool {
    (m: Movement) => true
  }

  function OfKind(kind: Kind): Movement -> bool {
    (m: Movement) => m.kind == kind
  }

  function OfKindAfter(kind: Kind, fromSeq: nat): Movement -> bool {
    (m: Movement) => m.kind == kind && m.num > fromSeq
  }

  /** Movements up to `mark` that a reconciliation counts. */
  function CountedUpTo(mark: nat): Movement -> bool {
    (m: Movement) => !m.kind.Transfer? && m.num <= mark
  }

  function MaxNum(rows: seq<Movement>): (m: nat)
    ensures forall r :: r in rows ==> r.num <= m
    ensures m == 0 || exists r :: r in rows && r.num == m
  {
    if rows == [] then 0
    else
      var last, m := rows[|rows| - 1], MaxNum(rows[..|rows| - 1]);
      if last.num > m then last.num else m
  }

  // ---- Movements ----

  predicate RequiresOpening(kind: Kind) {
    kind.Delivery? || kind.Sales? || kind.Transfer?
  }

  /** A posted opening that is not itself a reversal. */
  predicate GenuineOpening(m: Movement) {
    m.kind.Opening? && !m.reversed && !m.source.Correction?
  }

  predicate HasOpening(b: Book) {
    exists m :: m in b.rows && GenuineOpening(m)
  }

  function Append(b: Book, kind: Kind, source: Source, litres: int): Book {
    b.(rows := b.rows + [Movement(b.nextSeq, kind, source, litres, false)], nextSeq := b.nextSeq + 1)
  }

  /** A second genuine opening runs into the unique index. */
  function Post(b: Book, kind: Kind, source: Source, litres: int): Result<Book, Error> {
    if RequiresOpening(kind) && !HasOpening(b) then Err(NoOpening)
    else if kind.Opening? && !source.Correction? && HasOpening(b) then Err(OpeningExists)
    else Ok(Append(b, kind, source, litres))
  }

  function SetOpening(b: Book, source: Source, litres: int): Result<Book, Error> {
    if HasOpening(b) then Err(OpeningExists) else Post(b, Opening, source, litres)
  }

  function MarkReversed(rows: seq<Movement>, num: nat): (out: seq<Movement>)
    ensures |out| == |rows|
    ensures forall i :: 0 <= i < |rows| ==> out[i] == if rows[i].num == num then rows[i].(reversed := true) else rows[i]
  {
    if rows == [] then []
    else
      var last := rows[|rows| - 1];
      MarkReversed(rows[..|rows| - 1], num) + [if last.num == num then last.(reversed := true) else last]
  }

  function Find(rows: seq<Movement>, num: nat): (m: Option<Movement>)
    ensures m.Some? ==> m.value in rows && m.value.num == num
    ensures m.None? ==> forall r :: r in rows ==> r.num != num
  {
    if rows == [] then None
    else if rows[|rows| - 1].num == num then Some(rows[|rows| - 1])
    else Find(rows[..|rows| - 1], num)
  }

  /** Litres of the movement that undoes `m`. */
  function Contra(m: Movement): int {
    -m.litres
  }

  /** Mark the movement reversed, then post its contra. */
  function Reverse(b: Book, num: nat): Result<Book, Error> {
    match Find(b.rows, num)
    case None => Err(MovementNotFound)
    case Some(m) =>
      if m.reversed then Err(AlreadyReversed)
      else Post(b.(rows := MarkReversed(b.rows, num)), m.kind, Correction, Contra(m))
  }

  // ---- Reconciliations ----

  predicate SealedDay(b: Book, day: nat) {
    day in b.recons && b.recons[day].sealed
  }

  /** The last sealed reconciliation by `through_seq`, where the query may return any of several
      with the same one; failing that the genuine opening; failing that nothing. */
  ghost predicate IsAnchor(b: Book, a: Anchor) {
    if exists day :: SealedDay(b, day) then
      exists day :: SealedDay(b, day) && IsLast(b, day)
        && a == Anchor(b.recons[day].figures.closingPhysical, b.recons[day].figures.throughSeq)
    else if HasOpening(b) then
      exists m :: m in b.rows && GenuineOpening(m) && a == Anchor(m.litres, m.num)
    else a == Anchor(0, 0)
  }

  ghost predicate IsLast(b: Book, day: nat)
    requires SealedDay(b, day)
  {
    forall other :: SealedDay(b, other) ==> b.recons[other].figures.throughSeq <= b.recons[day].figures.throughSeq
  }

  function Compute(rows: seq<Movement>, a: Anchor, physical: int, tolerance: real): Figures {
    var opening := Sum(rows, OfKindAfter(Opening, a.upTo));
    var deliveries := Sum(rows, OfKindAfter(Delivery, a.upTo));
    var sales := -Sum(rows, OfKindAfter(Sales, a.upTo));
    var adjustments := Sum(rows, OfKindAfter(Adjustment, a.upTo));
    Figures(a.litres, deliveries, sales, adjustments,
            a.litres + opening + deliveries - sales + adjustments, physical, tolerance,
            if MaxNum(rows) > a.upTo then MaxNum(rows) else a.upTo)
  }

  function WriteOff(f: Figures): int {
    f.closingPhysical - f.closingBook
  }

  predicate WithinTolerance(f: Figures) {
    AbsReal((f.closingBook - f.closingPhysical) as real) <= AbsReal(f.closingBook as real) * f.tolerance / 100.0
  }

  function SaveDraft(b: Book, day: nat, f: Figures): Result<Book, Error> {
    if SealedDay(b, day) then Err(AlreadySealed) else Ok(b.(recons := b.recons[day := Recon(false, f)]))
  }

  /** Compute, refuse outside tolerance, write the difference off, and freeze the computed figures
      with the watermark read after the write-off. */
  function Seal(b: Book, day: nat, a: Anchor, physical: int, tolerance: real): Result<Book, Error> {
    if day !in b.recons then Err(DraftNotFound)
    else if b.recons[day].sealed then Err(AlreadySealed)
    else
      var f := Compute(b.rows, a, physical, tolerance);
      if !WithinTolerance(f) then Err(OverTolerance)
      else
        var settled := if WriteOff(f) != 0 then Append(b, Adjustment, Reconciliation, WriteOff(f)) else b;
        Ok(settled.(recons := settled.recons[day := Recon(true, f.(throughSeq := MaxNum(settled.rows)))]))
  }

  datatype Op =
    | DoPost(kind: Kind, litres: int)
    | DoSetOpening(source: Source, litres: int)
    | DoReverse(num: nat)
    | DoDraft(day: nat, a: Anchor, physical: int, tolerance: real)
    | DoSeal(day: nat, a: Anchor, physical: int, tolerance: real)
    | OtherTank

  function Outcome(b: Book, r: Result<Book, Error>): Book {
    if r.Ok? then r.value else b
  }

  /** A refused operation changes nothing: its transaction is rolled back. */
  ghost function Apply(b: Book, op: Op): Book {
    match op
    case DoPost(kind, litres) => Outcome(b, Post(b, kind, Manual, litres))
    case DoSetOpening(source, litres) => if source.Correction? then b else Outcome(b, SetOpening(b, source, litres))
    case DoReverse(num) => Outcome(b, Reverse(b, num))
    case DoDraft(day, a, physical, tolerance) =>
      if IsAnchor(b, a) then Outcome(b, SaveDraft(b, day, Compute(b.rows, a, physical, tolerance))) else b
    case DoSeal(day, a, physical, tolerance) =>
      if IsAnchor(b, a) then Outcome(b, Seal(b, day, a, physical, tolerance)) else b
    case OtherTank => b.(nextSeq := b.nextSeq + 1)
  }

  ghost function Run(b: Book, ops: seq<Op>): Book
    decreases |ops|
  {
    if ops == [] then b else Run(Apply(b, ops[0]), ops[1..])
  }

  // ---- Drift: what an anchor misses ----

  function Ledger(b: Book): int {
    Sum(b.rows, Every())
  }

  /** How far the counted ledger up to the anchor is from the anchor's own figure. */
  function Drift(b: Book, a: Anchor): int {
    Sum(b.rows, CountedUpTo(a.upTo)) - a.litres
  }

  lemma {:induction false} SumSame(rows: seq<Movement>, p: Movement -> bool, q: Movement -> bool)
    requires forall m :: m in rows ==> p(m) == q(m)
    ensures Sum(rows, p) == Sum(rows, q)
  {
    if rows != [] {
      SumSame(rows[..|rows| - 1], p, q);
    }
  }

  lemma SumSnoc(rows: seq<Movement>, m: Movement, p: Movement -> bool)
    ensures Sum(rows + [m], p) == Sum(rows, p) + (if p(m) then m.litres else 0)
  {
    assert (rows + [m])[..|rows|] == rows;
  }

  lemma {:induction false} SumMarked(rows: seq<Movement>, num: nat, p: Movement -> bool)
    requires forall m :: m in rows ==> p(m) == p(m.(reversed := true))
    ensures Sum(MarkReversed(rows, num), p) == Sum(rows, p)
  {
    if rows != [] {
      SumMarked(rows[..|rows| - 1], num, p);
      assert MarkReversed(rows, num)[..|rows| - 1] == MarkReversed(rows[..|rows| - 1], num);
    }
  }

  /** Splitting the ledger by kind and by the anchor's mark loses nothing. */
  lemma {:induction false} SumSplit(rows: seq<Movement>, mark: nat)
    ensures Sum(rows, Every()) == Sum(rows, CountedUpTo(mark)) + Sum(rows, OfKind(Transfer))
      + Sum(rows, OfKindAfter(Opening, mark)) + Sum(rows, OfKindAfter(Delivery, mark))
      + Sum(rows, OfKindAfter(Sales, mark)) + Sum(rows, OfKindAfter(Adjustment, mark))
  {
    if rows != [] {
      SumSplit(rows[..|rows| - 1], mark);
    }
  }

  /** Exactly what the book figure is, for any anchor. */
  lemma ClosingBookIs(b: Book, a: Anchor, physical: int, tolerance: real)
    ensures Compute(b.rows, a, physical, tolerance).closingBook
        == Ledger(b) - Sum(b.rows, OfKind(Transfer)) - Drift(b, a)
  {
    SumSplit(b.rows, a.upTo);
  }

  // ---- Invariant ----

  ghost predicate RowsOk(b: Book) {
    && b.nextSeq > 0
    && (forall m :: m in b.rows ==> 0 < m.num < b.nextSeq)
    && (forall i, j :: 0 <= i < j < |b.rows| ==> b.rows[i].num < b.rows[j].num)
  }

  ghost predicate OneOpening(b: Book) {
    forall m, n :: m in b.rows && n in b.rows && GenuineOpening(m) && GenuineOpening(n) ==> m == n
  }

  function SealAnchor(b: Book, day: nat): Anchor
    requires day in b.recons
  {
    Anchor(b.recons[day].figures.closingPhysical, b.recons[day].figures.throughSeq)
  }

  /** Every seal misses the same amount. */
  ghost predicate OneDrift(b: Book) {
    forall d, e :: SealedDay(b, d) && SealedDay(b, e) ==> Drift(b, SealAnchor(b, d)) == Drift(b, SealAnchor(b, e))
  }

  ghost predicate SealsOk(b: Book) {
    && (forall day :: SealedDay(b, day) ==> b.recons[day].figures.throughSeq <= MaxNum(b.rows))
    && OneDrift(b)
  }

  ghost predicate Inv(b: Book) {
    RowsOk(b) && OneOpening(b) && SealsOk(b)
  }

  /** Seals that share a watermark carry the same physical figure, so whichever row the
      last-sealed query returns, the next period opens on the same anchor. */
  lemma AnchorIsUnique(b: Book, a: Anchor, c: Anchor)
    requires Inv(b) && IsAnchor(b, a) && IsAnchor(b, c)
    ensures a == c
  {
    if exists day :: SealedDay(b, day) {
      var d :| SealedDay(b, d) && IsLast(b, d) && a == SealAnchor(b, d);
      var e :| SealedDay(b, e) && IsLast(b, e) && c == SealAnchor(b, e);
      assert Drift(b, SealAnchor(b, d)) == Drift(b, SealAnchor(b, e));
    }
  }

  // ---- Every operation keeps it ----

  lemma MaxNumBelow(b: Book)
    requires RowsOk(b)
    ensures MaxNum(b.rows) < b.nextSeq
  {
  }

  lemma AppendSums(b: Book, kind: Kind, source: Source, litres: int, p: Movement -> bool)
    ensures var m := Movement(b.nextSeq, kind, source, litres, false);
      Sum(Append(b, kind, source, litres).rows, p) == Sum(b.rows, p) + (if p(m) then litres else 0)
  {
    SumSnoc(b.rows, Movement(b.nextSeq, kind, source, litres, false), p);
  }

  /** A new row comes after every watermark, so no seal's drift moves. */
  lemma AppendKeepsDrift(b: Book, kind: Kind, source: Source, litres: int, a: Anchor)
    requires a.upTo < b.nextSeq
    ensures Drift(Append(b, kind, source, litres), a) == Drift(b, a)
  {
    AppendSums(b, kind, source, litres, CountedUpTo(a.upTo));
  }

  lemma AppendMax(b: Book, kind: Kind, source: Source, litres: int)
    requires RowsOk(b)
    ensures MaxNum(Append(b, kind, source, litres).rows) == b.nextSeq
  {
    var rows := Append(b, kind, source, litres).rows;
    assert rows[|rows| - 1] in rows && rows[..|rows| - 1] == b.rows;
  }

  /** Seals stay in order when no anchor's drift moves. */
  lemma SealsFrame(b: Book, b': Book)
    requires SealsOk(b) && b'.recons == b.recons && MaxNum(b.rows) <= MaxNum(b'.rows)
    requires forall d :: SealedDay(b, d) ==> Drift(b', SealAnchor(b, d)) == Drift(b, SealAnchor(b, d))
    ensures SealsOk(b')
  {
    forall d, e | SealedDay(b', d) && SealedDay(b', e)
      ensures Drift(b', SealAnchor(b', d)) == Drift(b', SealAnchor(b', e))
    {
      assert SealedDay(b, d) && SealedDay(b, e);
    }
    forall d | SealedDay(b', d) ensures b'.recons[d].figures.throughSeq <= MaxNum(b'.rows) {
      assert SealedDay(b, d);
    }
  }

  lemma AppendKeepsRows(b: Book, kind: Kind, source: Source, litres: int)
    requires RowsOk(b) && OneOpening(b)
    requires kind.Opening? && !source.Correction? ==> !HasOpening(b)
    ensures RowsOk(Append(b, kind, source, litres)) && OneOpening(Append(b, kind, source, litres))
  {
  }

  lemma AppendKeepsSeals(b: Book, kind: Kind, source: Source, litres: int)
    requires RowsOk(b) && SealsOk(b)
    ensures SealsOk(Append(b, kind, source, litres))
  {
    MaxNumBelow(b);
    AppendMax(b, kind, source, litres);
    forall d | SealedDay(b, d)
      ensures Drift(Append(b, kind, source, litres), SealAnchor(b, d)) == Drift(b, SealAnchor(b, d))
    {
      AppendKeepsDrift(b, kind, source, litres, SealAnchor(b, d));
    }
    SealsFrame(b, Append(b, kind, source, litres));
  }

  lemma AppendKeeps(b: Book, kind: Kind, source: Source, litres: int)
    requires Inv(b)
    requires kind.Opening? && !source.Correction? ==> !HasOpening(b)
    ensures Inv(Append(b, kind, source, litres))
  {
    AppendKeepsRows(b, kind, source, litres);
    AppendKeepsSeals(b, kind, source, litres);
  }

  lemma {:induction false} MaxMarked(rows: seq<Movement>, num: nat)
    ensures MaxNum(MarkReversed(rows, num)) == MaxNum(rows)
  {
    if rows != [] {
      MaxMarked(rows[..|rows| - 1], num);
      assert MarkReversed(rows, num)[..|rows| - 1] == MarkReversed(rows[..|rows| - 1], num);
    }
  }

  lemma MarkedRows(rows: seq<Movement>, num: nat, m: Movement) returns (was: Movement)
    requires m in MarkReversed(rows, num)
    ensures was in rows && (m == was || (was.num == num && m == was.(reversed := true)))
  {
    var i :| 0 <= i < |rows| && MarkReversed(rows, num)[i] == m;
    was := rows[i];
  }

  lemma MarkKeepsRows(b: Book, num: nat)
    requires RowsOk(b) && OneOpening(b)
    ensures RowsOk(b.(rows := MarkReversed(b.rows, num))) && OneOpening(b.(rows := MarkReversed(b.rows, num)))
  {
    var b' := b.(rows := MarkReversed(b.rows, num));
    forall m | m in b'.rows ensures 0 < m.num < b'.nextSeq {
      var o := MarkedRows(b.rows, num, m);
    }
    forall m, n | m in b'.rows && n in b'.rows && GenuineOpening(m) && GenuineOpening(n) ensures m == n {
      var o := MarkedRows(b.rows, num, m);
      var q := MarkedRows(b.rows, num, n);
    }
  }

  lemma MarkKeeps(b: Book, num: nat)
    requires Inv(b)
    ensures Inv(b.(rows := MarkReversed(b.rows, num)))
  {
    MarkKeepsRows(b, num);
    MaxMarked(b.rows, num);
    forall d | SealedDay(b, d)
      ensures Drift(b.(rows := MarkReversed(b.rows, num)), SealAnchor(b, d)) == Drift(b, SealAnchor(b, d))
    {
      SumMarked(b.rows, num, CountedUpTo(SealAnchor(b, d).upTo));
    }
    SealsFrame(b, b.(rows := MarkReversed(b.rows, num)));
  }

  lemma PostKeeps(b: Book, kind: Kind, source: Source, litres: int)
    requires Inv(b)
    ensures Inv(Outcome(b, Post(b, kind, source, litres)))
  {
    if Post(b, kind, source, litres).Ok? {
      AppendKeeps(b, kind, source, litres);
    }
  }

  lemma ReverseKeeps(b: Book, num: nat)
    requires Inv(b)
    ensures Inv(Outcome(b, Reverse(b, num)))
  {
    var m := Find(b.rows, num);
    if m.Some? && !m.value.reversed {
      MarkKeeps(b, num);
      PostKeeps(b.(rows := MarkReversed(b.rows, num)), m.value.kind, Correction, Contra(m.value));
    }
  }

  lemma DraftKeeps(b: Book, day: nat, f: Figures)
    requires Inv(b)
    ensures Inv(Outcome(b, SaveDraft(b, day, f)))
  {
    if !SealedDay(b, day) {
      DraftedSeals(b, b.(recons := b.recons[day := Recon(false, f)]), day);
    }
  }

  lemma DraftedSeals(b: Book, b': Book, day: nat)
    requires Inv(b) && b'.rows == b.rows && b'.nextSeq == b.nextSeq && !SealedDay(b, day) && !SealedDay(b', day)
    requires forall d :: d != day ==>
        (d in b'.recons <==> d in b.recons) && (d in b.recons ==> b'.recons[d] == b.recons[d])
    ensures Inv(b')
  {
    forall d | SealedDay(b', d)
      ensures SealedDay(b, d) && SealAnchor(b', d) == SealAnchor(b, d)
    {
    }
    forall d, e | SealedDay(b', d) && SealedDay(b', e)
      ensures Drift(b', SealAnchor(b', d)) == Drift(b', SealAnchor(b', e))
    {
      assert Drift(b, SealAnchor(b, d)) == Drift(b, SealAnchor(b, e));
    }
  }

  // ---- Sealing ----

  function Settled(b: Book, litres: int): Book {
    if litres != 0 then Append(b, Adjustment, Reconciliation, litres) else b
  }

  lemma SettledKeeps(b: Book, litres: int)
    requires Inv(b)
    ensures Inv(Settled(b, litres)) && MaxNum(b.rows) <= MaxNum(Settled(b, litres).rows)
  {
    MaxNumBelow(b);
    if litres != 0 {
      AppendKeeps(b, Adjustment, Reconciliation, litres);
      AppendMax(b, Adjustment, Reconciliation, litres);
    }
  }

  lemma SettledAdds(b: Book, litres: int)
    ensures Ledger(Settled(b, litres)) == Ledger(b) + litres
    ensures Sum(Settled(b, litres).rows, OfKind(Transfer)) == Sum(b.rows, OfKind(Transfer))
  {
    AppendSums(b, Adjustment, Reconciliation, litres, Every());
    AppendSums(b, Adjustment, Reconciliation, litres, OfKind(Transfer));
  }

  /** After the write-off the counted ledger is the physical figure plus what was missed before. */
  lemma SettledSums(b: Book, a: Anchor, physical: int, tolerance: real)
    ensures var b' := Settled(b, WriteOff(Compute(b.rows, a, physical, tolerance)));
      && Drift(b', Anchor(physical, MaxNum(b'.rows))) == Drift(b, a)
      && Ledger(b') == physical + Sum(b.rows, OfKind(Transfer)) + Drift(b, a)
      && Sum(b'.rows, OfKind(Transfer)) == Sum(b.rows, OfKind(Transfer))
  {
    var litres := WriteOff(Compute(b.rows, a, physical, tolerance));
    var b' := Settled(b, litres);
    ClosingBookIs(b, a, physical, tolerance);
    SettledAdds(b, litres);
    ClosingBookIs(b', Anchor(physical, MaxNum(b'.rows)), physical, tolerance);
    NothingAfterMax(b', physical, tolerance);
  }

  lemma {:induction false} SumNone(rows: seq<Movement>, p: Movement -> bool)
    requires forall m :: m in rows ==> !p(m)
    ensures Sum(rows, p) == 0
  {
    if rows != [] {
      SumNone(rows[..|rows| - 1], p);
    }
  }

  lemma NothingAfterMax(b: Book, physical: int, tolerance: real)
    ensures Compute(b.rows, Anchor(physical, MaxNum(b.rows)), physical, tolerance).closingBook == physical
  {
    var mark := MaxNum(b.rows);
    SumNone(b.rows, OfKindAfter(Opening, mark));
    SumNone(b.rows, OfKindAfter(Delivery, mark));
    SumNone(b.rows, OfKindAfter(Sales, mark));
    SumNone(b.rows, OfKindAfter(Adjustment, mark));
  }

  lemma SealedAnchor(b: Book, day: nat, f: Figures)
    requires Inv(b) && !SealedDay(b, day) && f.throughSeq == MaxNum(b.rows)
    requires forall d :: SealedDay(b, d) ==>
        Drift(b, SealAnchor(b, d)) == Drift(b, Anchor(f.closingPhysical, f.throughSeq))
    ensures var b' := b.(recons := b.recons[day := Recon(true, f)]);
      Inv(b') && IsAnchor(b', Anchor(f.closingPhysical, f.throughSeq))
  {
    var b' := b.(recons := b.recons[day := Recon(true, f)]);
    assert SealedDay(b', day);
    forall d | SealedDay(b', d)
      ensures b'.recons[d].figures.throughSeq <= MaxNum(b'.rows)
      ensures Drift(b', SealAnchor(b', d)) == Drift(b, Anchor(f.closingPhysical, f.throughSeq))
    {
      assert d != day ==> SealedDay(b, d) && Drift(b', SealAnchor(b', d)) == Drift(b, SealAnchor(b, d));
    }
    assert IsLast(b', day);
  }

  lemma SealsShareDrift(b: Book, a: Anchor, d: nat)
    requires Inv(b) && IsAnchor(b, a) && SealedDay(b, d)
    ensures Drift(b, SealAnchor(b, d)) == Drift(b, a)
  {
    var e :| SealedDay(b, e) && IsLast(b, e) && a == SealAnchor(b, e);
  }

  lemma SettledShares(b: Book, a: Anchor, litres: int, next: Anchor)
    requires Inv(b) && IsAnchor(b, a) && Drift(Settled(b, litres), next) == Drift(b, a)
    ensures var b' := Settled(b, litres);
      forall d :: SealedDay(b', d) ==> Drift(b', SealAnchor(b', d)) == Drift(b', next)
  {
    var b' := Settled(b, litres);
    MaxNumBelow(b);
    forall d | SealedDay(b', d) ensures Drift(b', SealAnchor(b', d)) == Drift(b', next) {
      assert SealedDay(b, d);
      SealsShareDrift(b, a, d);
      if litres != 0 {
        AppendKeepsDrift(b, Adjustment, Reconciliation, litres, SealAnchor(b, d));
      }
    }
  }

  /** What sealing a day does.  The closing dip becomes the anchor of the next period; computing
      again on it asks for no write-off; and the ledger lands on the dip, up to transfers and to what
      the first anchor missed, neither of which a seal changes. */
  lemma SealSettles(b: Book, day: nat, a: Anchor, physical: int, tolerance: real)
    requires Inv(b) && IsAnchor(b, a) && Seal(b, day, a, physical, tolerance).Ok?
    ensures var b' := Seal(b, day, a, physical, tolerance).value;
      var next := Anchor(physical, MaxNum(b'.rows));
      && Inv(b') && IsAnchor(b', next)
      && WriteOff(Compute(b'.rows, next, physical, tolerance)) == 0
      && Drift(b', next) == Drift(b, a)
      && Sum(b'.rows, OfKind(Transfer)) == Sum(b.rows, OfKind(Transfer))
      && Ledger(b') == physical + Sum(b.rows, OfKind(Transfer)) + Drift(b, a)
  {
    var f := Compute(b.rows, a, physical, tolerance);
    var mid := Settled(b, WriteOff(f));
    var next := Anchor(physical, MaxNum(mid.rows));
    SettledSums(b, a, physical, tolerance);
    SettledKeeps(b, WriteOff(f));
    SettledShares(b, a, WriteOff(f), next);
    SealedAnchor(mid, day, f.(throughSeq := MaxNum(mid.rows)));
    FrozenFigures(mid, Seal(b, day, a, physical, tolerance).value, next, tolerance);
  }

  /** What a seal reads off the rows it leaves. */
  lemma FrozenFigures(mid: Book, b': Book, next: Anchor, tolerance: real)
    requires b'.rows == mid.rows && next.upTo == MaxNum(mid.rows)
    ensures Drift(b', next) == Drift(mid, next) && Ledger(b') == Ledger(mid)
    ensures Sum(b'.rows, OfKind(Transfer)) == Sum(mid.rows, OfKind(Transfer))
    ensures WriteOff(Compute(b'.rows, next, next.litres, tolerance)) == 0
  {
    NothingAfterMax(mid, next.litres, tolerance);
  }

  lemma PostingOpKeeps(b: Book, op: Op)
    requires Inv(b) && (op.DoPost? || op.DoSetOpening? || op.DoReverse?)
    ensures Inv(Apply(b, op))
  {
    match op
    case DoPost(kind, litres) => PostKeeps(b, kind, Manual, litres);
    case DoSetOpening(source, litres) => SetOpeningKeeps(b, source, litres);
    case DoReverse(num) => ReverseKeeps(b, num);
  }

  lemma ReconOpKeeps(b: Book, op: Op)
    requires Inv(b) && (op.DoDraft? || op.DoSeal?)
    ensures Inv(Apply(b, op))
  {
    match op
    case DoDraft(day, a, physical, tolerance) =>
      if IsAnchor(b, a) {
        DraftKeeps(b, day, Compute(b.rows, a, physical, tolerance));
      }
    case DoSeal(day, a, physical, tolerance) =>
      if IsAnchor(b, a) {
        SealKeeps(b, day, a, physical, tolerance);
      }
  }

  /** The share of the book figure that a tolerance in percent allows, times a hundred. */
  function Share(book: int, tolerance: real): real {
    (if book < 0 then -book else book) as real * tolerance
  }

  /** A drafted day is sealed if and only if the dip is within the tolerance's percentage of the book figure, the ledger
      less transfers and less what the anchor misses; then exactly the difference is written off, as an adjustment of
      the reconciliation, and no larger one ever is. */
  lemma SealIff(b: Book, day: nat, a: Anchor, physical: int, tolerance: real)
    requires day in b.recons && !b.recons[day].sealed
    ensures var book := Ledger(b) - Sum(b.rows, OfKind(Transfer)) - Drift(b, a);
      var off, r := physical - book, Seal(b, day, a, physical, tolerance);
      && (r.Ok? <==> WithinShare(off, Share(book, tolerance)))
      && (r.Err? ==> r.error == OverTolerance)
      && (r.Ok? ==> r.value.rows == b.rows + WriteOffRows(b.nextSeq, off))
      && (r.Ok? ==> Froze(b.recons, r.value.recons, day, book, physical))
  {
    ClosingBookIs(b, a, physical, tolerance);
    WithinIs(Compute(b.rows, a, physical, tolerance));
    SealCases(b, day, a, physical, tolerance, Compute(b.rows, a, physical, tolerance));
  }

  predicate WithinShare(off: int, share: real) {
    -share <= 100.0 * off as real <= share
  }

  /** The adjustment that takes the ledger to the dip. */
  function WriteOffRows(num: nat, off: int): seq<Movement> {
    if off == 0 then [] else [Movement(num, Adjustment, Reconciliation, off, false)]
  }

  /** The day is sealed on the two figures, and no other day is touched. */
  predicate Froze(before: map<nat, Recon>, after: map<nat, Recon>, day: nat, book: int, physical: int) {
    && day in after && after - {day} == before - {day} && after[day].sealed
    && after[day].figures.closingBook == book && after[day].figures.closingPhysical == physical
  }

  /** The figures cover every row and the anchor, and nothing beyond. */
  lemma WatermarkIs(rows: seq<Movement>, a: Anchor, physical: int, tolerance: real)
    ensures var through := Compute(rows, a, physical, tolerance).throughSeq;
      && a.upTo <= through && (forall m :: m in rows ==> m.num <= through)
      && (through == a.upTo || exists m :: m in rows && m.num == through)
  {
  }

  lemma SealCases(b: Book, day: nat, a: Anchor, physical: int, tolerance: real, f: Figures)
    requires day in b.recons && !b.recons[day].sealed && f == Compute(b.rows, a, physical, tolerance)
    ensures var r := Seal(b, day, a, physical, tolerance);
      && (r.Ok? <==> WithinTolerance(f)) && (r.Err? ==> r.error == OverTolerance)
      && (r.Ok? ==> r.value.rows == b.rows + WriteOffRows(b.nextSeq, physical - f.closingBook))
      && (r.Ok? ==> Froze(b.recons, r.value.recons, day, f.closingBook, physical))
  {
    var settled := Settled(b, WriteOff(f));
    var frozen := f.(throughSeq := MaxNum(settled.rows));
    SealIs(b, day, a, physical, tolerance, f);
    SettledRows(b, WriteOff(f));
    FrozeIs(b.recons, day, frozen);
  }

  lemma SealIs(b: Book, day: nat, a: Anchor, physical: int, tolerance: real, f: Figures)
    requires day in b.recons && !b.recons[day].sealed && f == Compute(b.rows, a, physical, tolerance)
    ensures var settled := Settled(b, WriteOff(f));
      Seal(b, day, a, physical, tolerance) == if !WithinTolerance(f) then Err(OverTolerance)
        else Ok(settled.(recons := b.recons[day := Recon(true, f.(throughSeq := MaxNum(settled.rows)))]))
  {
  }

  lemma SettledRows(b: Book, off: int)
    ensures Settled(b, off).rows == b.rows + WriteOffRows(b.nextSeq, off)
  {
  }

  lemma FrozeIs(recons: map<nat, Recon>, day: nat, f: Figures)
    ensures Froze(recons, recons[day := Recon(true, f)], day, f.closingBook, f.closingPhysical)
  {
  }

  lemma WithinIs(f: Figures)
    ensures WithinTolerance(f) <==> WithinShare(f.closingPhysical - f.closingBook, Share(f.closingBook, f.tolerance))
  {
    var share := AbsReal(f.closingBook as real) * f.tolerance;
    ShareIs(f.closingBook, f.tolerance);
    Percent((f.closingBook - f.closingPhysical) as real, share);
  }

  lemma ShareIs(book: int, tolerance: real)
    ensures AbsReal(book as real) * tolerance == Share(book, tolerance)
  {
    assert AbsReal(book as real) == (if book < 0 then -book else book) as real;
  }

  lemma Percent(x: real, share: real)
    ensures AbsReal(x) <= share / 100.0 <==> -share <= 100.0 * -x <= share
  {
  }

  /** A movement after the anchor shows in the figure of its own kind, sales with the opposite sign, and in the book
      figure unless it is a transfer; and nowhere else. */
  lemma PostedShows(b: Book, kind: Kind, source: Source, litres: int, a: Anchor, physical: int, tolerance: real)
    requires a.upTo < b.nextSeq
    ensures var f := Compute(b.rows, a, physical, tolerance);
      var g := Compute(Append(b, kind, source, litres).rows, a, physical, tolerance);
      && g.openingBook == f.openingBook == a.litres
      && g.deliveries == f.deliveries + (if kind.Delivery? then litres else 0)
      && g.sales == f.sales - (if kind.Sales? then litres else 0)
      && g.adjustments == f.adjustments + (if kind.Adjustment? then litres else 0)
      && g.closingBook == f.closingBook + (if kind.Transfer? then 0 else litres)
  {
    AppendSums(b, kind, source, litres, OfKindAfter(Opening, a.upTo));
    AppendSums(b, kind, source, litres, OfKindAfter(Delivery, a.upTo));
    AppendSums(b, kind, source, litres, OfKindAfter(Sales, a.upTo));
    AppendSums(b, kind, source, litres, OfKindAfter(Adjustment, a.upTo));
  }

  lemma ApplyKeeps(b: Book, op: Op)
    requires Inv(b)
    ensures Inv(Apply(b, op))
  {
    if op.OtherTank? {
      OtherTankKeeps(b);
    } else if op.DoDraft? || op.DoSeal? {
      ReconOpKeeps(b, op);
    } else {
      PostingOpKeeps(b, op);
    }
  }

  lemma SetOpeningKeeps(b: Book, source: Source, litres: int)
    requires Inv(b)
    ensures Inv(Outcome(b, SetOpening(b, source, litres)))
  {
    if !HasOpening(b) {
      PostKeeps(b, Opening, source, litres);
    }
  }

  lemma SealKeeps(b: Book, day: nat, a: Anchor, physical: int, tolerance: real)
    requires Inv(b) && IsAnchor(b, a)
    ensures Inv(Outcome(b, Seal(b, day, a, physical, tolerance)))
  {
    if Seal(b, day, a, physical, tolerance).Ok? {
      SealSettles(b, day, a, physical, tolerance);
    }
  }

  lemma OtherTankKeeps(b: Book)
    requires Inv(b)
    ensures Inv(b.(nextSeq := b.nextSeq + 1))
  {
    var b' := b.(nextSeq := b.nextSeq + 1);
    forall d, e | SealedDay(b', d) && SealedDay(b', e)
      ensures Drift(b', SealAnchor(b', d)) == Drift(b', SealAnchor(b', e))
    {
      assert SealedDay(b, d) && SealedDay(b, e);
      assert Drift(b, SealAnchor(b, d)) == Drift(b, SealAnchor(b, e));
    }
  }

  lemma {:induction false} RunKeeps(b: Book, ops: seq<Op>)
    requires Inv(b)
    ensures Inv(Run(b, ops))
    decreases |ops|
  {
    if ops != [] {
      ApplyKeeps(b, ops[0]);
      RunKeeps(Apply(b, ops[0]), ops[1..]);
    }
  }

  // ---- Sealed figures are final ----

  lemma ApplyKeepsSeals(b: Book, op: Op, day: nat)
    requires SealedDay(b, day)
    ensures var b' := Apply(b, op); SealedDay(b', day) && b'.recons[day] == b.recons[day]
  {
  }

  lemma {:induction false} SealedForever(b: Book, ops: seq<Op>, day: nat)
    requires SealedDay(b, day)
    ensures var b' := Run(b, ops); SealedDay(b', day) && b'.recons[day] == b.recons[day]
    decreases |ops|
  {
    if ops != [] {
      ApplyKeepsSeals(b, ops[0], day);
      SealedForever(Apply(b, ops[0]), ops[1..], day);
    }
  }

  // ---- Reversals ----

  /** A reversed movement and its contra cancel in every sum over kinds. */
  lemma ReverseNets(b: Book, num: nat, kind: Kind)
    requires Reverse(b, num).Ok?
    ensures var m, rows := Find(b.rows, num).value, Reverse(b, num).value.rows;
      && Sum(rows, OfKind(kind)) == Sum(b.rows, OfKind(kind)) - (if m.kind == kind then m.litres else 0)
      && Sum(rows, Every()) == Sum(b.rows, Every()) - m.litres
  {
    ContraSums(b, num, Find(b.rows, num).value, kind);
  }

  lemma {:induction false} FoundIs(rows: seq<Movement>, i: nat)
    requires i < |rows| && forall j, k :: 0 <= j < k < |rows| ==> rows[j].num != rows[k].num
    ensures Find(rows, rows[i].num) == Some(rows[i])
  {
    if i < |rows| - 1 {
      FoundIs(rows[..|rows| - 1], i);
    }
  }

  lemma MarkedAt(rows: seq<Movement>, i: nat)
    requires i < |rows| && forall j, k :: 0 <= j < k < |rows| ==> rows[j].num != rows[k].num
    ensures MarkReversed(rows, rows[i].num) == rows[i := rows[i].(reversed := true)]
  {
    var marked, expected := MarkReversed(rows, rows[i].num), rows[i := rows[i].(reversed := true)];
    forall j | 0 <= j < |rows| ensures marked[j] == expected[j] {
      assert rows[j].num == rows[i].num ==> j == i;
    }
  }

  /** The tank's opening is posted, was not reversed and is no reversal. */
  predicate Stands(rows: seq<Movement>) {
    exists o :: o in rows && o.kind.Opening? && !o.reversed && !o.source.Correction?
  }

  lemma StandsMarked(b: Book, i: nat, marked: seq<Movement>)
    requires i < |b.rows| && !b.rows[i].kind.Opening? && marked == b.rows[i := b.rows[i].(reversed := true)]
    ensures HasOpening(b.(rows := marked)) <==> Stands(b.rows)
  {
    if o :| o in b.rows && GenuineOpening(o) {
      var j :| 0 <= j < |b.rows| && b.rows[j] == o;
      assert marked[j] == o;
    }
  }

  lemma ReverseIs(b: Book, i: nat)
    requires RowsOk(b) && i < |b.rows|
    ensures var m := b.rows[i];
      Reverse(b, m.num) == if m.reversed then Err(AlreadyReversed)
        else Post(b.(rows := b.rows[i := m.(reversed := true)]), m.kind, Correction, -m.litres)
  {
    FoundIs(b.rows, i);
    MarkedAt(b.rows, i);
  }

  lemma NotTwice(b: Book, i: nat)
    requires RowsOk(b) && i < |b.rows| && Reverse(b, b.rows[i].num).Ok?
    ensures Reverse(Reverse(b, b.rows[i].num).value, b.rows[i].num) == Err(AlreadyReversed)
  {
    var m := b.rows[i];
    ReverseIs(b, i);
    var rows := b.rows[i := m.(reversed := true)] + [Movement(b.nextSeq, m.kind, Correction, -m.litres, false)];
    assert Reverse(b, m.num).value.rows == rows;
    FoundIs(rows, i);
  }

  /** A posted movement can be reversed if and only if it was not yet; a delivery, sale or transfer also needs the
      tank's opening to stand.  It then cannot be reversed again. */
  lemma ReversedIff(b: Book, i: nat)
    requires RowsOk(b) && i < |b.rows|
    ensures var m, r := b.rows[i], Reverse(b, b.rows[i].num);
      && (r.Ok? <==> !m.reversed && (m.kind.Opening? || m.kind.Adjustment? || Stands(b.rows)))
      && (r.Ok? ==> r.value.rows == b.rows[i := m.(reversed := true)]
                                    + [Movement(b.nextSeq, m.kind, Correction, -m.litres, false)])
      && (r.Ok? ==> Reverse(r.value, m.num) == Err(AlreadyReversed))
  {
    ReverseIs(b, i);
    if !b.rows[i].kind.Opening? {
      StandsMarked(b, i, b.rows[i := b.rows[i].(reversed := true)]);
    }
    if Reverse(b, b.rows[i].num).Ok? {
      NotTwice(b, i);
    }
  }

  lemma ContraSums(b: Book, num: nat, m: Movement, kind: Kind)
    ensures var rows := Append(b.(rows := MarkReversed(b.rows, num)), m.kind, Correction, Contra(m)).rows;
      && Sum(rows, OfKind(kind)) == Sum(b.rows, OfKind(kind)) - (if m.kind == kind then m.litres else 0)
      && Sum(rows, Every()) == Sum(b.rows, Every()) - m.litres
  {
    AppendSums(b.(rows := MarkReversed(b.rows, num)), m.kind, Correction, Contra(m), OfKind(kind));
    AppendSums(b.(rows := MarkReversed(b.rows, num)), m.kind, Correction, Contra(m), Every());
    SumMarked(b.rows, num, OfKind(kind));
    SumMarked(b.rows, num, Every());
  }

  // ---- Clean books ----

  ghost predicate Clean(b: Book) {
    NoTransfers(b) && forall a :: IsAnchor(b, a) ==> Drift(b, a) == 0
  }

  ghost predicate AnySealed(b: Book) {
    exists day :: SealedDay(b, day)
  }

  /** No transfers, and until the first seal an opening is set only on an empty balance. */
  ghost predicate CleanOp(b: Book, op: Op) {
    match op
    case DoPost(kind, _) => !kind.Transfer? && (kind.Opening? && !AnySealed(b) ==> Ledger(b) == 0)
    case DoSetOpening(_, _) => !AnySealed(b) ==> Ledger(b) == 0
    case _ => true
  }

  ghost predicate CleanRun(b: Book, ops: seq<Op>)
    decreases |ops|
  {
    ops == [] || (CleanOp(b, ops[0]) && CleanRun(Apply(b, ops[0]), ops[1..]))
  }

  lemma DriftOfNothing(b: Book)
    requires RowsOk(b)
    ensures Drift(b, Anchor(0, 0)) == 0
  {
    SumNone(b.rows, CountedUpTo(0));
  }

  /** The genesis opening misses exactly what was on the books before it. */
  lemma GenesisDrift(b: Book, m: Movement)
    requires RowsOk(b) && m in b.rows && !m.kind.Transfer?
    ensures Drift(b, Anchor(m.litres, m.num)) == Sum(b.rows, CountedUpTo(m.num - 1))
  {
    GenesisSum(b.rows, m);
  }

  lemma {:induction false} GenesisSum(rows: seq<Movement>, m: Movement)
    requires m in rows && !m.kind.Transfer? && m.num > 0
    requires forall i, j :: 0 <= i < j < |rows| ==> rows[i].num < rows[j].num
    ensures Sum(rows, CountedUpTo(m.num)) == Sum(rows, CountedUpTo(m.num - 1)) + m.litres
  {
    var before, last := rows[..|rows| - 1], rows[|rows| - 1];
    var i :| 0 <= i < |rows| && rows[i] == m;
    if i == |rows| - 1 {
      SumSame(before, CountedUpTo(m.num), CountedUpTo(m.num - 1));
    } else {
      assert before[i] == m;
      GenesisSum(before, m);
    }
  }

  lemma AppendAnchors(b: Book, kind: Kind, source: Source, litres: int, a: Anchor)
    requires IsAnchor(Append(b, kind, source, litres), a)
    ensures IsAnchor(b, a) || (!AnySealed(b) && kind.Opening? && !source.Correction? && a == Anchor(litres, b.nextSeq))
  {
    var b' := Append(b, kind, source, litres);
    assert forall d :: SealedDay(b', d) <==> SealedDay(b, d);
    if AnySealed(b) {
      var day :| SealedDay(b', day) && IsLast(b', day)
        && a == Anchor(b'.recons[day].figures.closingPhysical, b'.recons[day].figures.throughSeq);
      assert SealedDay(b, day);
      forall other | SealedDay(b, other)
        ensures b.recons[other].figures.throughSeq <= b.recons[day].figures.throughSeq
      {
        assert SealedDay(b', other);
      }
      assert IsLast(b, day);
    }
  }

  lemma AnchorBelow(b: Book, a: Anchor)
    requires Inv(b) && IsAnchor(b, a)
    ensures a.upTo < b.nextSeq
  {
    MaxNumBelow(b);
  }

  lemma AppendClean(b: Book, kind: Kind, source: Source, litres: int)
    requires Inv(b) && Clean(b) && !kind.Transfer?
    requires kind.Opening? && !source.Correction? && !AnySealed(b) ==> Ledger(b) == 0
    ensures Clean(Append(b, kind, source, litres))
  {
    var b' := Append(b, kind, source, litres);
    forall a | IsAnchor(b', a) ensures Drift(b', a) == 0 {
      AppendAnchors(b, kind, source, litres, a);
      if IsAnchor(b, a) {
        AnchorBelow(b, a);
        AppendKeepsDrift(b, kind, source, litres, a);
      } else {
        SumSame(b'.rows, CountedUpTo(b.nextSeq), Every());
        AppendSums(b, kind, source, litres, Every());
      }
    }
  }

  lemma MarkAnchors(b: Book, num: nat, a: Anchor)
    requires IsAnchor(b.(rows := MarkReversed(b.rows, num)), a)
    ensures IsAnchor(b, a) || a == Anchor(0, 0)
  {
    var b' := b.(rows := MarkReversed(b.rows, num));
    assert forall d :: SealedDay(b', d) <==> SealedDay(b, d);
    if AnySealed(b) {
      SameSeals(b, b', a);
    } else if HasOpening(b') {
      var m :| m in b'.rows && GenuineOpening(m) && a == Anchor(m.litres, m.num);
      var o := MarkedRows(b.rows, num, m);
      assert o == m;
    }
  }

  lemma SameSeals(b: Book, b': Book, a: Anchor)
    requires b'.recons == b.recons && AnySealed(b) && IsAnchor(b', a)
    ensures IsAnchor(b, a)
  {
    assert forall d :: SealedDay(b', d) <==> SealedDay(b, d);
    var day :| SealedDay(b', day) && IsLast(b', day)
      && a == Anchor(b'.recons[day].figures.closingPhysical, b'.recons[day].figures.throughSeq);
    forall other | SealedDay(b, other)
      ensures b.recons[other].figures.throughSeq <= b.recons[day].figures.throughSeq
    {
      assert SealedDay(b', other);
    }
    assert SealedDay(b, day) && IsLast(b, day);
  }

  lemma MarkKeepsKinds(rows: seq<Movement>, num: nat)
    requires forall m :: m in rows ==> !m.kind.Transfer?
    ensures forall m :: m in MarkReversed(rows, num) ==> !m.kind.Transfer?
  {
    forall m | m in MarkReversed(rows, num) ensures !m.kind.Transfer? {
      var o := MarkedRows(rows, num, m);
    }
  }

  lemma MarkClean(b: Book, num: nat)
    requires Inv(b) && Clean(b)
    ensures Clean(b.(rows := MarkReversed(b.rows, num)))
  {
    var b' := b.(rows := MarkReversed(b.rows, num));
    MarkKeepsKinds(b.rows, num);
    MarkKeepsRows(b, num);
    DriftOfNothing(b');
    forall a | IsAnchor(b', a) ensures Drift(b', a) == 0 {
      MarkAnchors(b, num, a);
      SumMarked(b.rows, num, CountedUpTo(a.upTo));
    }
  }

  lemma ContraClean(b: Book, m: Movement)
    requires Inv(b) && Clean(b) && m in b.rows
    ensures Clean(Append(b.(rows := MarkReversed(b.rows, m.num)), m.kind, Correction, Contra(m)))
  {
    MarkKeeps(b, m.num);
    MarkClean(b, m.num);
    AppendClean(b.(rows := MarkReversed(b.rows, m.num)), m.kind, Correction, Contra(m));
  }

  lemma ReverseClean(b: Book, num: nat)
    requires Inv(b) && Clean(b) && Reverse(b, num).Ok?
    ensures Clean(Reverse(b, num).value)
  {
    ContraClean(b, Find(b.rows, num).value);
  }

  lemma DraftClean(b: Book, day: nat, f: Figures)
    requires Clean(b) && !SealedDay(b, day)
    ensures Clean(b.(recons := b.recons[day := Recon(false, f)]))
  {
    var b' := b.(recons := b.recons[day := Recon(false, f)]);
    assert forall d :: SealedDay(b', d) <==> SealedDay(b, d);
    forall a | IsAnchor(b', a) ensures Drift(b', a) == 0 {
      if AnySealed(b) {
        var e :| SealedDay(b', e) && IsLast(b', e)
          && a == Anchor(b'.recons[e].figures.closingPhysical, b'.recons[e].figures.throughSeq);
        forall other | SealedDay(b, other)
          ensures b.recons[other].figures.throughSeq <= b.recons[e].figures.throughSeq
        {
          assert SealedDay(b', other);
        }
        assert SealedDay(b, e) && IsLast(b, e);
      }
      assert IsAnchor(b, a) && Drift(b, a) == 0;
    }
  }

  ghost predicate NoTransfers(b: Book) {
    forall m :: m in b.rows ==> !m.kind.Transfer?
  }

  lemma SealAddsNoTransfer(b: Book, day: nat, a: Anchor, physical: int, tolerance: real, b': Book)
    requires NoTransfers(b) && Seal(b, day, a, physical, tolerance) == Ok(b')
    ensures NoTransfers(b')
  {
  }

  /** An anchor without drift is every anchor. */
  lemma AnchorClean(b: Book, next: Anchor)
    requires Inv(b) && NoTransfers(b) && IsAnchor(b, next) && Drift(b, next) == 0
    ensures Clean(b)
  {
    forall a | IsAnchor(b, a) ensures Drift(b, a) == 0 {
      AnchorIsUnique(b, a, next);
    }
  }

  lemma SealClean(b: Book, day: nat, a: Anchor, physical: int, tolerance: real, b': Book)
    requires Inv(b) && Clean(b) && IsAnchor(b, a) && Seal(b, day, a, physical, tolerance) == Ok(b')
    ensures Clean(b')
  {
    SealAddsNoTransfer(b, day, a, physical, tolerance, b');
    SealSettles(b, day, a, physical, tolerance);
    AnchorClean(b', Anchor(physical, MaxNum(b'.rows)));
  }

  lemma ApplyClean(b: Book, op: Op)
    requires Inv(b) && Clean(b) && CleanOp(b, op)
    ensures Clean(Apply(b, op))
  {
    match op
    case DoPost(kind, litres) => if Post(b, kind, Manual, litres).Ok? { AppendClean(b, kind, Manual, litres); }
    case DoSetOpening(source, litres) =>
      if !source.Correction? && SetOpening(b, source, litres).Ok? { AppendClean(b, Opening, source, litres); }
    case DoReverse(num) => if Reverse(b, num).Ok? { ReverseClean(b, num); }
    case DoDraft(day, a, physical, tolerance) =>
      if IsAnchor(b, a) && !SealedDay(b, day) { DraftClean(b, day, Compute(b.rows, a, physical, tolerance)); }
    case DoSeal(day, a, physical, tolerance) =>
      if IsAnchor(b, a) && Seal(b, day, a, physical, tolerance).Ok? {
        SealClean(b, day, a, physical, tolerance, Apply(b, op));
      }
    case OtherTank =>
      var b' := Apply(b, op);
      assert forall d :: SealedDay(b', d) <==> SealedDay(b, d);
      forall a | IsAnchor(b', a) ensures Drift(b', a) == 0 {
        if AnySealed(b) { SameSeals(b, b', a); }
        assert IsAnchor(b, a) && Drift(b, a) == 0;
      }
  }

  lemma {:induction false} RunClean(b: Book, ops: seq<Op>)
    requires Inv(b) && Clean(b) && CleanRun(b, ops)
    ensures Inv(Run(b, ops)) && Clean(Run(b, ops))
    decreases |ops|
  {
    if ops != [] {
      ApplyKeeps(b, ops[0]);
      ApplyClean(b, ops[0]);
      RunClean(Apply(b, ops[0]), ops[1..]);
    }
  }

  // ---- The seal chain ----

  /** Over every run the book figure is the ledger less transfers and drift, so it is the ledger
      sum exactly when those cancel. */
  lemma BookFigure(ops: seq<Op>, a: Anchor, physical: int, tolerance: real)
    requires IsAnchor(Run(Fresh, ops), a)
    ensures var b := Run(Fresh, ops);
      && (Compute(b.rows, a, physical, tolerance).closingBook == Ledger(b)
          <==> Sum(b.rows, OfKind(Transfer)) + Drift(b, a) == 0)
      && forall c :: IsAnchor(b, c) ==> c == a
  {
    var b := Run(Fresh, ops);
    RunKeeps(Fresh, ops);
    ClosingBookIs(b, a, physical, tolerance);
    forall c | IsAnchor(b, c) ensures c == a {
      AnchorIsUnique(b, a, c);
    }
  }

  /** On a clean run the book figure is the ledger sum, and a seal leaves the ledger on the dip. */
  lemma CleanSeals(ops: seq<Op>, day: nat, a: Anchor, physical: int, tolerance: real)
    requires CleanRun(Fresh, ops) && IsAnchor(Run(Fresh, ops), a)
    ensures var b := Run(Fresh, ops);
      && Compute(b.rows, a, physical, tolerance).closingBook == Ledger(b)
      && var r := Seal(b, day, a, physical, tolerance);
         r.Ok? ==>
           && Ledger(r.value) == physical
           && IsAnchor(r.value, Anchor(physical, MaxNum(r.value.rows)))
           && WriteOff(Compute(r.value.rows, Anchor(physical, MaxNum(r.value.rows)), physical, tolerance)) == 0
  {
    var b := Run(Fresh, ops);
    FreshClean();
    RunClean(Fresh, ops);
    SumNone(b.rows, OfKind(Transfer));
    ClosingBookIs(b, a, physical, tolerance);
    if Seal(b, day, a, physical, tolerance).Ok? {
      SealSettles(b, day, a, physical, tolerance);
    }
  }

  lemma FreshClean()
    ensures Inv(Fresh) && Clean(Fresh)
  {
    forall a | IsAnchor(Fresh, a) ensures Drift(Fresh, a) == 0 {
      assert forall d :: !SealedDay(Fresh, d);
    }
  }

  /** An opening of 100 litres, a transfer of 5 in. */
  function Example(): Book {
    Book([Movement(1, Opening, Manual, 100000, false), Movement(2, Transfer, Manual, 5000, false)], 3, map[])
  }

  lemma {:induction false} RunAppend(b: Book, ops: seq<Op>, more: seq<Op>)
    ensures Run(b, ops + more) == Run(Run(b, ops), more)
    decreases |ops|
  {
    if ops == [] {
      assert ops + more == more;
    } else {
      assert (ops + more)[1..] == ops[1..] + more;
      RunAppend(Apply(b, ops[0]), ops[1..], more);
    }
  }

  lemma RunOne(b: Book, op: Op)
    ensures Run(b, [op]) == Apply(b, op)
  {
    assert [op][1..] == [];
  }

  function Posted(): seq<Op> {
    [DoSetOpening(Manual, 100000)] + [DoPost(Transfer, 5000)]
  }

  lemma PostedIsReached()
    ensures Run(Fresh, Posted()) == Example()
  {
    var one := Append(Fresh, Opening, Manual, 100000);
    assert one.rows[0] in one.rows && GenuineOpening(one.rows[0]);
    RunAppend(Fresh, [DoSetOpening(Manual, 100000)], [DoPost(Transfer, 5000)]);
    RunOne(Fresh, DoSetOpening(Manual, 100000));
    RunOne(one, DoPost(Transfer, 5000));
  }

  lemma ExampleAnchor(recons: map<nat, Recon>)
    requires forall day :: day in recons ==> !recons[day].sealed
    ensures IsAnchor(Example().(recons := recons), Anchor(100000, 1))
  {
    var b := Example().(recons := recons);
    assert b.rows[0] in b.rows && GenuineOpening(b.rows[0]);
    assert forall d :: !SealedDay(b, d);
  }

  function Drafted(b: Book, day: nat, f: Figures): Book {
    b.(recons := b.recons[day := Recon(false, f)])
  }

  lemma DraftRuns(b: Book, day: nat, a: Anchor, physical: int, tolerance: real)
    requires IsAnchor(b, a) && !SealedDay(b, day)
    ensures exists f :: Run(b, [DoDraft(day, a, physical, tolerance)]) == Drafted(b, day, f)
  {
    var f := Compute(b.rows, a, physical, tolerance);
    RunOne(b, DoDraft(day, a, physical, tolerance));
    assert Run(b, [DoDraft(day, a, physical, tolerance)]) == Drafted(b, day, f);
  }

  lemma SumTwo(rows: seq<Movement>, p: Movement -> bool)
    requires |rows| == 2
    ensures Sum(rows, p) == (if p(rows[0]) then rows[0].litres else 0) + (if p(rows[1]) then rows[1].litres else 0)
  {
    SumSnoc([], rows[0], p);
    SumSnoc([rows[0]], rows[1], p);
    assert [] + [rows[0]] == [rows[0]] && [rows[0]] + [rows[1]] == rows;
  }

  lemma ExampleSums()
    ensures var b := Example();
      Ledger(b) == 105000 && Compute(b.rows, Anchor(100000, 1), 105000, 10.0).closingBook == 100000
  {
    var rows := Example().rows;
    SumTwo(rows, Every());
    SumTwo(rows, OfKindAfter(Opening, 1));
    SumTwo(rows, OfKindAfter(Delivery, 1));
    SumTwo(rows, OfKindAfter(Sales, 1));
    SumTwo(rows, OfKindAfter(Adjustment, 1));
  }

  lemma SealAddsWriteOff(b: Book, day: nat, a: Anchor, physical: int, tolerance: real)
    requires SealAllowed(b, day) && WithinTolerance(Compute(b.rows, a, physical, tolerance))
    ensures var r := Seal(b, day, a, physical, tolerance);
      r.Ok? && Ledger(r.value) == Ledger(b) + physical - Compute(b.rows, a, physical, tolerance).closingBook
  {
    SettledAdds(b, WriteOff(Compute(b.rows, a, physical, tolerance)));
  }

  predicate SealAllowed(b: Book, day: nat) {
    day in b.recons && !b.recons[day].sealed
  }

  lemma SealMissesTransfer(draft: Figures)
    ensures var b, a := Drafted(Example(), 0, draft), Anchor(100000, 1);
      var s := Seal(b, 0, a, 105000, 10.0);
      IsAnchor(b, a) && Ledger(b) == 105000 && s.Ok? && Ledger(s.value) == 110000
  {
    var b := Drafted(Example(), 0, draft);
    ExampleAnchor(b.recons);
    ExampleSums();
    SealAddsWriteOff(b, 0, Anchor(100000, 1), 105000, 10.0);
  }

  /** A transfer in the period is not in the book figure: a run after which the dip agrees with the ledger, and
      sealing moves the ledger off the dip. */
  lemma TransferEscapesSeal()
    ensures var a := Anchor(100000, 1);
      var b := Run(Fresh, Posted() + [DoDraft(0, a, 105000, 10.0)]);
      var s := Seal(b, 0, a, 105000, 10.0);
      IsAnchor(b, a) && Ledger(b) == 105000 && s.Ok? && Ledger(s.value) == 110000
  {
    var a := Anchor(100000, 1);
    RunAppend(Fresh, Posted(), [DoDraft(0, a, 105000, 10.0)]);
    PostedIsReached();
    ExampleAnchor(map[]);
    DraftRuns(Example(), 0, a, 105000, 10.0);
    var f :| Run(Example(), [DoDraft(0, a, 105000, 10.0)]) == Drafted(Example(), 0, f);
    SealMissesTransfer(f);
  }
}

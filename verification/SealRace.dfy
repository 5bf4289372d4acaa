/** Sealing a day among concurrent postings.

The seal handler sums the period inside its transaction but before it holds the tank's key, and reads the
watermark afterwards.  Every statement sees what is committed by then, so the two reads may differ.
 */
module SealRace {
  import opened StockLedger
  import opened Wrappers

  /** The rows `PeriodTotalsSince` sums for a reader: no upper bound. */
  function SeenAfter(t: Tank, kind: Kind, fromSeq: nat, reader: Option<Tx>): Row -> bool {
    (r: Row) => r.tank == t && Visible(r, reader) && r.kind == kind && fromSeq < r.num
  }

  function Max(a: nat, b: nat): nat {
    if a < b then b else a
  }

  /** What the period gained between the two reads. */
  function Gap(s: State, t: Tank, kind: Kind, fromSeq: nat, first: nat, mark: nat, tx: Tx): int {
    Total(s.rows, SeenIn(t, kind, Max(fromSeq, first), mark, Some(tx)))
  }

  lemma {:induction false} SumsSplit(rows: seq<Row>, t: Tank, kind: Kind, fromSeq: nat, first: nat, mark: nat,
                                     reader: Option<Tx>)
    requires first <= mark
    ensures Total(rows, SeenIn(t, kind, fromSeq, mark, reader))
         == Total(rows, SeenIn(t, kind, fromSeq, first, reader))
            + Total(rows, SeenIn(t, kind, Max(fromSeq, first), mark, reader))
  {
    if rows != [] {
      SumsSplit(rows[..|rows| - 1], t, kind, fromSeq, first, mark, reader);
    }
  }

  /** A watermark read later in the same open transaction is no lower. */
  lemma MarkRises(h: Hash, past: seq<Step>, between: seq<Step>, t: Tank, tx: Tx)
    requires FateOf(between, tx).StillOpen?
    ensures var s := Run(h, Init, past);
      MaxSeq(s.rows, t, Some(tx)) <= MaxSeq(Run(h, s, between).rows, t, Some(tx))
  {
    var s := Run(h, Init, past);
    var first := MaxSeq(s.rows, t, Some(tx));
    WatermarkInTransaction(h, past, between, t, tx, Sales, 0);
    if first > 0 {
      var top :| top in s.rows && top.tank == t && Visible(top, Some(tx)) && top.num == first;
      assert top in Select(s.rows, UpTo(t, first));
      assert top in Select(Run(h, s, between).rows, UpTo(t, first));
    }
  }

  /** Whatever runs between the two reads: the period up to the mark holds what the seal counted and the gap. */
  lemma SealedFigureIs(h: Hash, past: seq<Step>, between: seq<Step>, t: Tank, tx: Tx, kind: Kind, fromSeq: nat)
    requires FateOf(between, tx).StillOpen?
    ensures var s := Run(h, Init, past);
      var later, first := Run(h, s, between), MaxSeq(s.rows, t, Some(tx));
      var mark := MaxSeq(later.rows, t, Some(tx));
      Total(later.rows, SeenIn(t, kind, fromSeq, mark, Some(tx)))
      == Total(s.rows, SeenAfter(t, kind, fromSeq, Some(tx))) + Gap(later, t, kind, fromSeq, first, mark, tx)
  {
    var s := Run(h, Init, past);
    var later, first := Run(h, s, between), MaxSeq(s.rows, t, Some(tx));
    TotalSame(s.rows, SeenAfter(t, kind, fromSeq, Some(tx)), SeenIn(t, kind, fromSeq, first, Some(tx)));
    WatermarkInTransaction(h, past, between, t, tx, kind, fromSeq);
    MarkRises(h, past, between, t, tx);
    SumsSplit(later.rows, t, kind, fromSeq, first, MaxSeq(later.rows, t, Some(tx)), Some(tx));
  }

  // ---- With the key held first ----

  /** The transaction holds the tank's key, and what stands on the tank from `n` on is its own. */
  predicate Owns(h: Hash, s: State, t: Tank, tx: Tx, n: nat) {
    && tx in s.active && Holds(h, s, tx, t) && n <= s.nextSeq
    && (forall r :: r in s.rows && r.tank == t && n <= r.num ==> r.owner == tx)
  }

  /** The holder sees everything on the tank. */
  lemma HolderOwns(h: Hash, s: State, t: Tank, tx: Tx)
    requires Inv(h, s) && tx in s.active && Holds(h, s, tx, t)
    ensures Owns(h, s, t, tx, MaxSeq(s.rows, t, Some(tx)) + 1)
  {
    VisibleUpToMark(h, s, t, Some(tx));
  }

  lemma StepOwns(h: Hash, s: State, step: Step, t: Tank, tx: Tx, n: nat)
    requires Inv(h, s) && Owns(h, s, t, tx, n) && step != Commit(tx) && step != Rollback(tx)
    ensures Owns(h, Exec(h, s, step), t, tx, n)
  {
    var s' := Exec(h, s, step);
    forall r | r in s'.rows && r.tank == t && n <= r.num ensures r.owner == tx {
      if step.Commit? && step.tx in s.active {
        var i :| 0 <= i < |s'.rows| && s'.rows[i] == r;
        assert s.rows[i] in s.rows;
      }
    }
  }

  lemma {:induction false} RunOwns(h: Hash, s: State, steps: seq<Step>, t: Tank, tx: Tx, n: nat)
    requires Inv(h, s) && Owns(h, s, t, tx, n) && FateOf(steps, tx).StillOpen?
    ensures Owns(h, Run(h, s, steps), t, tx, n)
    decreases |steps|
  {
    if steps != [] {
      StepOwns(h, s, steps[0], t, tx, n);
      StepKeepsInv(h, s, steps[0]);
      RunOwns(h, Exec(h, s, steps[0]), steps[1..], t, tx, n);
    }
  }

  /** Own rows of the transaction between the two reads: the write-off. */
  function OwnIn(t: Tank, kind: Kind, fromSeq: nat, mark: nat, tx: Tx): Row -> bool {
    (r: Row) => r.tank == t && r.owner == tx && r.kind == kind && fromSeq < r.num <= mark
  }

  /** Had the seal taken the key before it summed, nobody else could have posted in between: the gap would be its own
      write-off and nothing more. */
  lemma KeyFirstClosesGap(h: Hash, past: seq<Step>, between: seq<Step>, t: Tank, tx: Tx, kind: Kind, fromSeq: nat)
    requires FateOf(between, tx).StillOpen?
    requires var s := Run(h, Init, past); tx in s.active && Holds(h, s, tx, t)
    ensures var s := Run(h, Init, past);
      var later, first := Run(h, s, between), MaxSeq(s.rows, t, Some(tx));
      var mark := MaxSeq(later.rows, t, Some(tx));
      Gap(later, t, kind, fromSeq, first, mark, tx) == Total(later.rows, OwnIn(t, kind, Max(fromSeq, first), mark, tx))
  {
    var s := Run(h, Init, past);
    var later, first := Run(h, s, between), MaxSeq(s.rows, t, Some(tx));
    var mark := MaxSeq(later.rows, t, Some(tx));
    RunKeepsInv(h, Init, past);
    HolderOwns(h, s, t, tx);
    RunOwns(h, s, between, t, tx, first + 1);
    OwnGap(h, later, t, tx, kind, first + 1, Max(fromSeq, first), mark);
  }

  lemma OwnGap(h: Hash, s: State, t: Tank, tx: Tx, kind: Kind, n: nat, fromSeq: nat, mark: nat)
    requires n <= fromSeq + 1 && Owns(h, s, t, tx, n)
    ensures Total(s.rows, SeenIn(t, kind, fromSeq, mark, Some(tx))) == Total(s.rows, OwnIn(t, kind, fromSeq, mark, tx))
  {
    TotalSame(s.rows, SeenIn(t, kind, fromSeq, mark, Some(tx)), OwnIn(t, kind, fromSeq, mark, tx));
  }

  // ---- Without the key ----

  lemma {:induction false} AboveAll(txs: set<Tx>) returns (tx: Tx)
    ensures tx !in txs
    ensures forall other :: other in txs ==> other < tx
    decreases txs
  {
    if txs == {} {
      tx := 0;
    } else {
      var one :| one in txs;
      var rest := AboveAll(txs - {one});
      tx := if one < rest then rest else one + 1;
      assert forall other :: other in txs ==> other == one || other in txs - {one};
    }
  }

  lemma {:induction false} OthersLeaveOpen(steps: seq<Step>, tx: Tx)
    requires forall i :: 0 <= i < |steps| ==> steps[i].tx != tx
    ensures FateOf(steps, tx).StillOpen?
  {
    if steps != [] {
      OthersLeaveOpen(steps[1..], tx);
    }
  }

  /** How whoever else holds the tank's key lets go of it. */
  function LettingGo(h: Hash, s: State, t: Tank): seq<Step> {
    if h(t.id) !in s.locks then []
    else
      [EndOf(s, s.locks[h(t.id)])]
  }

  function EndOf(s: State, w: Tx): Step {
    if w in s.active then Rollback(w) else Release(w)
  }

  /** Afterwards the key is free, and on the tank there is nothing that was not there before. */
  lemma KeyIsFree(h: Hash, s: State, t: Tank, tx: Tx, f: Tx)
    requires Inv(h, s) && tx in s.active && !Holds(h, s, tx, t) && f !in s.active && f !in s.ending
    ensures var s' := Run(h, s, LettingGo(h, s, t));
      && Unused(h, s', f, t) && s'.nextSeq == s.nextSeq
      && (forall r :: r in s'.rows ==> r in s.rows)
  {
    if h(t.id) in s.locks {
      var step := EndOf(s, s.locks[h(t.id)]);
      RunCons(h, s, step, []);
      assert [step] + [] == LettingGo(h, s, t);
      StepKeepsInv(h, s, step);
      FreedKey(h, s, s.locks[h(t.id)], t);
    }
  }

  lemma HoldersRun(h: Hash, s: State, k: int)
    requires Inv(h, s) && k in s.locks
    ensures s.locks[k] in s.active || s.locks[k] in s.ending
  {
  }

  lemma FreedKey(h: Hash, s: State, w: Tx, t: Tank)
    requires Inv(h, s) && h(t.id) in s.locks && s.locks[h(t.id)] == w
    ensures var s' := Exec(h, s, EndOf(s, w));
      && h(t.id) !in s'.locks && s'.nextSeq == s.nextSeq && s'.active <= s.active && s'.ending <= s.ending
      && (forall k :: k in s'.locks ==> k in s.locks && s'.locks[k] == s.locks[k])
      && (forall r :: r in s'.rows ==> r in s.rows)
  {
    var s' := Exec(h, s, EndOf(s, w));
    FreedBy(s.locks, w);
    HoldersRun(h, s, h(t.id));
    if w in s.active {
      assert s'.locks == Free(s.locks, w) && s'.rows == Select(s.rows, Kept(w)) && s'.active == s.active - {w};
    } else {
      assert s'.locks == Free(s.locks, w) && s'.rows == s.rows && s'.ending == s.ending - {w};
    }
  }

  lemma FreedBy(locks: map<int, Tx>, w: Tx)
    ensures forall k :: k in Free(locks, w) <==> k in locks && locks[k] != w
    ensures forall k :: k in Free(locks, w) ==> Free(locks, w)[k] == locks[k]
  {
  }

  lemma {:induction false} TotalNone(rows: seq<Row>, p: Row -> bool)
    requires forall r :: r in rows ==> !p(r)
    ensures Total(rows, p) == 0
  {
    if rows != [] {
      TotalNone(rows[..|rows| - 1], p);
    }
  }

  /** A row of somebody else above everything the transaction saw is the whole gap, and none of it its own. */
  lemma ForeignRow(rows: seq<Row>, r: Row, t: Tank, tx: Tx, fromSeq: nat, first: nat)
    requires forall q :: q in rows && q.tank == t && Visible(q, Some(tx)) ==> q.num <= first
    requires r.tank == t && r.committed && r.owner != tx && first < r.num && fromSeq < r.num
    requires forall q :: q in rows ==> q.num < r.num
    ensures MaxSeq(rows + [r], t, Some(tx)) == r.num
    ensures Total(rows + [r], SeenIn(t, r.kind, Max(fromSeq, first), r.num, Some(tx))) == r.litres
    ensures Total(rows + [r], OwnIn(t, r.kind, Max(fromSeq, first), r.num, tx)) == 0
  {
    var after := Max(fromSeq, first);
    var seen, own := SeenIn(t, r.kind, after, r.num, Some(tx)), OwnIn(t, r.kind, after, r.num, tx);
    TotalSnoc(rows, r, seen);
    TotalSnoc(rows, r, own);
    TotalNone(rows, seen);
    TotalNone(rows, own);
    HighestRow(rows, r, t, tx);
  }

  lemma HighestRow(rows: seq<Row>, r: Row, t: Tank, tx: Tx)
    requires r.tank == t && r.committed && forall q :: q in rows ==> q.num < r.num
    ensures MaxSeq(rows + [r], t, Some(tx)) == r.num
  {
    assert (rows + [r])[|rows|] == r && r in rows + [r];
  }

  /** Whoever holds the key lets go of it, and somebody sells a thousandth. */
  function Schedule(h: Hash, s: State, t: Tank, f: Tx): seq<Step> {
    LettingGo(h, s, t) + Posting(f, t, Sales, -1.0)
  }

  lemma SoldBetween(h: Hash, s: State, t: Tank, tx: Tx, f: Tx) returns (rows: seq<Row>, r: Row)
    requires Inv(h, s) && tx in s.active && !Holds(h, s, tx, t) && f !in s.active && f !in s.ending
    ensures Run(h, s, Schedule(h, s, t, f)).rows == rows + [r] && forall q :: q in rows ==> q in s.rows
    ensures r.num == s.nextSeq && r.tank == t && r.kind == Sales && r.litres == -1 && r.owner == f && r.committed
  {
    var freed := Run(h, s, LettingGo(h, s, t));
    rows := freed.rows;
    var balance := Total(rows, VisibleOnTank(t, Some(f)));
    r := Row(s.nextSeq, t, Sales, -1, Numeric.Round(balance as real + -1.0), None, f, true);
    KeyIsFree(h, s, t, tx, f);
    PostedRow(h, freed, f, t, Sales, -1.0, balance);
    OneSold();
    RunAppend(h, s, LettingGo(h, s, t), Posting(f, t, Sales, -1.0));
  }

  lemma OneSold()
    ensures Numeric.Round(-1.0) == -1
  {
    assert (1.0 + 0.5).Floor == 1;
  }

  lemma ScheduleOfOthers(h: Hash, s: State, t: Tank, tx: Tx, f: Tx)
    requires tx in s.active && !Holds(h, s, tx, t) && f != tx
    ensures FateOf(Schedule(h, s, t, f), tx).StillOpen?
  {
    OthersLeaveOpen(Schedule(h, s, t, f), tx);
  }

  /** What the seal counted, plus its own write-off, is the period up to the mark: for one schedule and kind. */
  predicate NoGap(h: Hash, s: State, between: seq<Step>, t: Tank, tx: Tx, kind: Kind, fromSeq: nat) {
    var later, first := Run(h, s, between), MaxSeq(s.rows, t, Some(tx));
    var mark := MaxSeq(later.rows, t, Some(tx));
    Gap(later, t, kind, fromSeq, first, mark, tx) == Total(later.rows, OwnIn(t, kind, Max(fromSeq, first), mark, tx))
  }

  lemma NoKeyOpensGap(h: Hash, s: State, t: Tank, tx: Tx, fromSeq: nat, f: Tx)
    requires Inv(h, s) && tx in s.active && !Holds(h, s, tx, t) && fromSeq < s.nextSeq
    requires f !in s.active && f !in s.ending
    ensures !NoGap(h, s, Schedule(h, s, t, f), t, tx, Sales, fromSeq)
  {
    var rows, r := SoldBetween(h, s, t, tx, f);
    VisibleUpToMark(h, s, t, Some(tx));
    ForeignRow(rows, r, t, tx, fromSeq, MaxSeq(s.rows, t, Some(tx)));
  }

  /** The seal's sums are those of its period, up to its own write-off, whatever the others do before it reads the mark,
      if and only if it holds the tank's key when it sums. */
  lemma KeyIffNoGap(h: Hash, past: seq<Step>, t: Tank, tx: Tx, fromSeq: nat)
    requires var s := Run(h, Init, past); tx in s.active && fromSeq < s.nextSeq
    ensures var s := Run(h, Init, past);
      Holds(h, s, tx, t)
      <==> forall between, kind :: FateOf(between, tx).StillOpen? ==> NoGap(h, s, between, t, tx, kind, fromSeq)
  {
    var s := Run(h, Init, past);
    if Holds(h, s, tx, t) {
      forall between, kind | FateOf(between, tx).StillOpen? ensures NoGap(h, s, between, t, tx, kind, fromSeq) {
        KeyFirstClosesGap(h, past, between, t, tx, kind, fromSeq);
      }
    } else {
      RunKeepsInv(h, Init, past);
      var f := AboveAll(s.active + s.ending);
      NoKeyOpensGap(h, s, t, tx, fromSeq, f);
      ScheduleOfOthers(h, s, t, tx, f);
    }
  }

  // ---- A sale in no period ----

  /** Ten litres in the tank and a seal has begun. */
  function SealBegun(t: Tank): seq<Step> {
    Posting(1, t, Opening, 10000.0) + [Begin(2)]
  }

  lemma SealBegunIs(h: Hash, t: Tank)
    ensures var r := Row(1, t, Opening, 10000, 10000, None, 1, true);
      Run(h, Init, SealBegun(t)) == State([r], 2, map[], {2}, {})
  {
    PostingRuns(h, Init, 1, t, Opening, 10000.0);
    var s := Run(h, Init, Posting(1, t, Opening, 10000.0));
    assert s.rows == [Row(1, t, Opening, 10000, 10000, None, 1, true)];
    RunAppend(h, Init, Posting(1, t, Opening, 10000.0), [Begin(2)]);
    RunCons(h, s, Begin(2), []);
  }

  lemma SoldMeanwhileIs(h: Hash, t: Tank)
    ensures var r := Row(1, t, Opening, 10000, 10000, None, 1, true);
      var later := Run(h, State([r], 2, map[], {2}, {}), Posting(3, t, Sales, -1000.0));
      later.rows == [r] + [Row(2, t, Sales, -1000, 9000, None, 3, true)]
  {
    var r := Row(1, t, Opening, 10000, 10000, None, 1, true);
    PostingRuns(h, State([r], 2, map[], {2}, {}), 3, t, Sales, -1000.0);
    assert [] + [r] == [r];
    TotalSnoc([], r, VisibleOnTank(t, Some(3)));
  }

  lemma SoldSums(t: Tank, first: Row, second: Row)
    requires first == Row(1, t, Opening, 10000, 10000, None, 1, true)
    requires second == Row(2, t, Sales, -1000, 9000, None, 3, true)
    ensures var rows := [first] + [second];
      && MaxSeq(rows, t, Some(2)) == 2
      && Total(rows, SeenIn(t, Sales, 0, 2, Some(2))) == -1000
      && Total(rows, SeenAfter(t, Sales, 2, Some(2))) == 0
  {
    var rows := [first] + [second];
    assert rows[1] in rows;
    TwoRows(first, second, SeenIn(t, Sales, 0, 2, Some(2)));
    TwoRows(first, second, SeenAfter(t, Sales, 2, Some(2)));
  }

  /** A litre sold between the sum and the mark: the seal counted no sale, the sale is at the mark, and a period that
      starts there does not see it either. */
  lemma SaleInNoPeriod(h: Hash)
    ensures var t := Tank(1, 1);
      var s := Run(h, Init, SealBegun(t));
      var later := Run(h, s, Posting(3, t, Sales, -1000.0));
      var mark := MaxSeq(later.rows, t, Some(2));
      && Total(s.rows, SeenAfter(t, Sales, 0, Some(2))) == 0
      && Total(later.rows, SeenIn(t, Sales, 0, mark, Some(2))) == -1000
      && Total(later.rows, SeenAfter(t, Sales, mark, Some(2))) == 0
  {
    var t := Tank(1, 1);
    var first := Row(1, t, Opening, 10000, 10000, None, 1, true);
    SealBegunIs(h, t);
    SoldMeanwhileIs(h, t);
    SoldSums(t, first, Row(2, t, Sales, -1000, 9000, None, 3, true));
    assert [] + [first] == [first];
    TotalSnoc([], first, SeenAfter(t, Sales, 0, Some(2)));
  }
}

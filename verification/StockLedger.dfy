/** The stock ledger under concurrent transactions.

One step is one SQL statement.  A transaction takes the advisory lock of a tank
(keyed by an arbitrary hash of the tank id), inserts movements whose
`balance_after` is the sum it can see plus its own litres, and commits or rolls
back.  `num`, the `seq` column, comes from a global counter that is never handed out twice.  Litres
are in thousandths, the scale of the `numeric(14,3)` columns.
 */
module StockLedger {
  import opened Numeric
  import opened Wrappers

  type Tx = nat

  datatype Tank = Tank(tenant: nat, id: nat)

  datatype Kind = Opening | Delivery | Sales | Adjustment | Transfer

  /** `owner` is the inserting transaction; `order` the transfer the row belongs to, if any. */
  datatype Row = Row(num: nat, tank: Tank, kind: Kind, litres: int, balanceAfter: int,
                     order: Option<nat>, owner: Tx, committed: bool)

  /** `active` transactions may still write.  An `ending` one has committed, its rows are
      visible, and it is about to release its locks. */
  datatype State = State(rows: seq<Row>, nextSeq: nat, locks: map<int, Tx>,
                         active: set<Tx>, ending: set<Tx>)

  /** `amount` is the litre figure as written by the caller, before the numeric cast. */
  datatype Step =
    | Begin(tx: Tx)
    | Lock(tx: Tx, tank: Tank)
    | Insert(tx: Tx, tank: Tank, kind: Kind, amount: real, order: Option<nat>)
    | Commit(tx: Tx)
    | Release(tx: Tx)
    | Rollback(tx: Tx)

  type Hash = nat -> int

  const Init := State([], 1, map[], {}, {})

  // ---- Reading the table ----

  /** A reader sees committed rows and, inside a transaction, its own. */
  predicate Visible(r: Row, reader: Option<Tx>) {
    r.committed || reader == Some(r.owner)
  }

  function Total(rows: seq<Row>, p: Row -> bool): int {
    if rows == [] then 0
    else Total(rows[..|rows| - 1], p) + (if p(rows[|rows| - 1]) then rows[|rows| - 1].litres else 0)
  }

  function Select(rows: seq<Row>, p: Row -> bool): (kept: seq<Row>)
    ensures forall r :: r in kept <==> r in rows && p(r)
  {
    if rows == [] then []
    else if p(rows[|rows| - 1]) then Select(rows[..|rows| - 1], p) + [rows[|rows| - 1]]
    else Select(rows[..|rows| - 1], p)
  }

  function OnTank(t: Tank): Row -> bool {
    (r: Row) => r.tank == t
  }

  function VisibleOnTank(t: Tank, reader: Option<Tx>): Row -> bool {
    (r: Row) => r.tank == t && Visible(r, reader)
  }

  /** `COALESCE(MAX(seq), 0)` over the rows of a tank the reader can see. */
  function MaxSeq(rows: seq<Row>, t: Tank, reader: Option<Tx>): (m: nat)
    ensures forall r :: r in rows && r.tank == t && Visible(r, reader) ==> r.num <= m
    ensures m == 0 || exists r :: r in rows && r.tank == t && Visible(r, reader) && r.num == m
  {
    if rows == [] then 0
    else
      var last, m := rows[|rows| - 1], MaxSeq(rows[..|rows| - 1], t, reader);
      if last.tank == t && Visible(last, reader) && last.num > m then last.num else m
  }

  // ---- Steps ----

  predicate Holds(h: Hash, s: State, tx: Tx, t: Tank) {
    h(t.id) in s.locks && s.locks[h(t.id)] == tx
  }

  function Free(locks: map<int, Tx>, tx: Tx): map<int, Tx> {
    map k | k in locks && locks[k] != tx :: locks[k]
  }

  function NewRow(s: State, tx: Tx, t: Tank, kind: Kind, amount: real, order: Option<nat>): Row {
    Row(s.nextSeq, t, kind, Round(amount),
        Round(Total(s.rows, VisibleOnTank(t, Some(tx))) as real + amount), order, tx, false)
  }

  function CommitRows(rows: seq<Row>, tx: Tx): (out: seq<Row>)
    ensures |out| == |rows|
    ensures forall i :: 0 <= i < |rows| ==>
      out[i] == if rows[i].owner == tx then rows[i].(committed := true) else rows[i]
  {
    if rows == [] then []
    else
      var last := rows[|rows| - 1];
      CommitRows(rows[..|rows| - 1], tx) + [if last.owner == tx then last.(committed := true) else last]
  }

  function Kept(tx: Tx): Row -> bool {
    (r: Row) => r.committed || r.owner != tx
  }

  /** A step whose guard fails is a statement that waits: nothing changes. */
  function Exec(h: Hash, s: State, step: Step): State {
    match step
    case Begin(tx) =>
      if tx in s.ending then s else s.(active := s.active + {tx})
    case Lock(tx, t) =>
      if tx in s.active && (h(t.id) !in s.locks || s.locks[h(t.id)] == tx)
      then s.(locks := s.locks[h(t.id) := tx]) else s
    case Insert(tx, t, kind, amount, order) =>
      if tx in s.active && Holds(h, s, tx, t)
      then s.(rows := s.rows + [NewRow(s, tx, t, kind, amount, order)], nextSeq := s.nextSeq + 1)
      else s
    case Commit(tx) =>
      if tx in s.active
      then s.(rows := CommitRows(s.rows, tx), active := s.active - {tx}, ending := s.ending + {tx})
      else s
    case Release(tx) =>
      if tx in s.ending then s.(locks := Free(s.locks, tx), ending := s.ending - {tx}) else s
    case Rollback(tx) =>
      if tx in s.active
      then s.(rows := Select(s.rows, Kept(tx)), locks := Free(s.locks, tx), active := s.active - {tx})
      else s
  }

  function Run(h: Hash, s: State, steps: seq<Step>): State
    decreases |steps|
  {
    if steps == [] then s else Run(h, Exec(h, s, steps[0]), steps[1..])
  }

  /** The written amount is not halfway between two thousandths, or it has the sign of the
      balance it leads to.  Only then does rounding the sum agree with summing the rounded. */
  predicate CastsAgree(s: State, tx: Tx, t: Tank, amount: real) {
    !Halfway(amount) || (amount > 0.0 <==> Total(s.rows, VisibleOnTank(t, Some(tx))) as real + amount > 0.0)
  }

  /** The `num` of the row a step inserts with agreeing casts. */
  function ExactStep(h: Hash, s: State, step: Step): set<nat> {
    if step.Insert? && step.tx in s.active && Holds(h, s, step.tx, step.tank)
       && CastsAgree(s, step.tx, step.tank, step.amount)
    then {s.nextSeq} else {}
  }

  /** The rows a run inserts with agreeing casts. */
  function ExactRows(h: Hash, s: State, steps: seq<Step>): set<nat>
    decreases |steps|
  {
    if steps == [] then {} else ExactStep(h, s, steps[0]) + ExactRows(h, Exec(h, s, steps[0]), steps[1..])
  }

  // ---- Invariant ----

  /** Rows in insertion order: `num` rises, and on a tank nothing committed follows something
      uncommitted. */
  predicate Chain(rows: seq<Row>) {
    rows == [] ||
    var before, last := rows[..|rows| - 1], rows[|rows| - 1];
    && Chain(before)
    && (forall r :: r in before ==> r.num < last.num)
    && (forall r :: r in before && r.tank == last.tank && !r.committed ==> !last.committed)
  }

  /** A row carries its tank's sum so far exactly when it is one of the `exact` ones. */
  predicate Balances(rows: seq<Row>, exact: set<nat>) {
    rows == [] ||
    var last := rows[|rows| - 1];
    && Balances(rows[..|rows| - 1], exact)
    && (last.balanceAfter == Total(rows, OnTank(last.tank)) <==> last.num in exact)
  }

  predicate Inv(h: Hash, s: State) {
    && Chain(s.rows)
    && s.nextSeq > 0
    && s.active !! s.ending
    && (forall k :: k in s.locks ==> s.locks[k] in s.active + s.ending)
    && RowsOk(h, s)
  }

  /** Row numbers come from the counter, and whoever wrote an uncommitted row is still active
      and holds the tank's lock. */
  predicate RowsOk(h: Hash, s: State) {
    && (forall r :: r in s.rows ==> 0 < r.num < s.nextSeq)
    && (forall r :: r in s.rows && !r.committed ==> r.owner in s.active && Holds(h, s, r.owner, r.tank))
  }

  /** Each tank has one transaction that owns everything uncommitted on it. */
  predicate WrittenBy(rows: seq<Row>, writer: Tank -> Tx) {
    forall r :: r in rows && !r.committed ==> r.owner == writer(r.tank)
  }

  function Holder(h: Hash, s: State): Tank -> Tx {
    (t: Tank) => if h(t.id) in s.locks then s.locks[h(t.id)] else 0
  }

  // ---- Sums over changed tables ----

  lemma {:induction false} TotalSame(rows: seq<Row>, p: Row -> bool, q: Row -> bool)
    requires forall r :: r in rows ==> p(r) == q(r)
    ensures Total(rows, p) == Total(rows, q)
  {
    if rows != [] {
      TotalSame(rows[..|rows| - 1], p, q);
    }
  }

  lemma TotalSnoc(rows: seq<Row>, r: Row, p: Row -> bool)
    ensures Total(rows + [r], p) == Total(rows, p) + (if p(r) then r.litres else 0)
  {
    assert (rows + [r])[..|rows|] == rows;
  }

  lemma SelectSnoc(rows: seq<Row>, r: Row, p: Row -> bool)
    ensures Select(rows + [r], p) == Select(rows, p) + (if p(r) then [r] else [])
  {
    assert (rows + [r])[..|rows|] == rows;
  }

  /** Summing only what the filter keeps loses nothing the sum looks at. */
  lemma {:induction false} TotalSelect(rows: seq<Row>, p: Row -> bool, q: Row -> bool)
    requires forall r :: r in rows && p(r) ==> q(r)
    ensures Total(Select(rows, q), p) == Total(rows, p)
  {
    if rows != [] {
      var before, last := rows[..|rows| - 1], rows[|rows| - 1];
      TotalSelect(before, p, q);
      if q(last) {
        TotalSnoc(Select(before, q), last, p);
      }
    }
  }

  lemma {:induction false} TotalCommit(rows: seq<Row>, tx: Tx, t: Tank)
    ensures Total(CommitRows(rows, tx), OnTank(t)) == Total(rows, OnTank(t))
  {
    if rows != [] {
      TotalCommit(rows[..|rows| - 1], tx, t);
      assert CommitRows(rows, tx)[..|rows| - 1] == CommitRows(rows[..|rows| - 1], tx);
    }
  }

  // ---- Every step keeps the invariant ----

  /** On one tank the later of two rows stays uncommitted as long as the earlier one does. */
  predicate LaterWaits(a: Row, b: Row) {
    a.num < b.num && (a.tank == b.tank && !a.committed ==> !b.committed)
  }

  lemma CommitKeepsPair(a: Row, b: Row, tx: Tx, writer: Tank -> Tx)
    requires LaterWaits(a, b) && WrittenBy([a, b], writer)
    ensures LaterWaits(if a.owner == tx then a.(committed := true) else a,
                       if b.owner == tx then b.(committed := true) else b)
  {
    assert a in [a, b] && b in [a, b];
  }

  lemma {:induction false} CommitChain(rows: seq<Row>, tx: Tx, writer: Tank -> Tx)
    requires Chain(rows)
    requires WrittenBy(rows, writer)
    ensures Chain(CommitRows(rows, tx))
  {
    if rows != [] {
      var before, last := rows[..|rows| - 1], rows[|rows| - 1];
      CommitChain(before, tx, writer);
      var out := CommitRows(before, tx);
      forall r | r in out ensures LaterWaits(r, CommitRows(rows, tx)[|before|]) {
        var i :| 0 <= i < |before| && out[i] == r;
        assert before[i] in before && before[i] in rows && last in rows;
        CommitKeepsPair(before[i], last, tx, writer);
      }
      ChainSnoc(out, CommitRows(rows, tx)[|before|]);
      assert CommitRows(rows, tx) == out + [CommitRows(rows, tx)[|before|]];
    }
  }

  lemma ChainSnoc(rows: seq<Row>, last: Row)
    requires Chain(rows)
    requires forall r :: r in rows ==> r.num < last.num
    requires forall r :: r in rows && r.tank == last.tank && !r.committed ==> !last.committed
    ensures Chain(rows + [last])
  {
    assert (rows + [last])[..|rows|] == rows;
  }

  lemma {:induction false} RollbackChain(rows: seq<Row>, tx: Tx)
    requires Chain(rows)
    ensures Chain(Select(rows, Kept(tx)))
  {
    if rows != [] {
      var before, last := rows[..|rows| - 1], rows[|rows| - 1];
      RollbackChain(before, tx);
      if Kept(tx)(last) {
        ChainSnoc(Select(before, Kept(tx)), last);
      }
    }
  }

  /** An insert under the tank's lock stores the true running balance exactly when the two
      casts in its statement agree. */
  lemma InsertBalance(h: Hash, s: State, tx: Tx, t: Tank, kind: Kind, amount: real, order: Option<nat>)
    requires Inv(h, s) && tx in s.active && Holds(h, s, tx, t)
    ensures var r := NewRow(s, tx, t, kind, amount, order);
      r.balanceAfter == Total(s.rows + [r], OnTank(t)) <==> CastsAgree(s, tx, t, amount)
  {
    var r := NewRow(s, tx, t, kind, amount, order);
    TotalSame(s.rows, VisibleOnTank(t, Some(tx)), OnTank(t));
    RoundShift(Total(s.rows, OnTank(t)), amount);
    TotalSnoc(s.rows, r, OnTank(t));
  }

  lemma InsertKeepsInv(h: Hash, s: State, tx: Tx, t: Tank, kind: Kind, amount: real, order: Option<nat>)
    requires Inv(h, s)
    ensures Inv(h, Exec(h, s, Insert(tx, t, kind, amount, order)))
  {
    if tx in s.active && Holds(h, s, tx, t) {
      ChainSnoc(s.rows, NewRow(s, tx, t, kind, amount, order));
    }
  }

  lemma CommitRowsOk(h: Hash, s: State, tx: Tx)
    requires RowsOk(h, s) && tx in s.active
    ensures RowsOk(h, Exec(h, s, Commit(tx)))
  {
    var out := CommitRows(s.rows, tx);
    forall r | r in out
      ensures 0 < r.num < s.nextSeq
      ensures !r.committed ==> r in s.rows && r.owner != tx
    {
      var i :| 0 <= i < |out| && out[i] == r;
      assert s.rows[i] in s.rows;
    }
  }

  lemma CommitKeepsInv(h: Hash, s: State, tx: Tx)
    requires Inv(h, s)
    ensures Inv(h, Exec(h, s, Commit(tx)))
  {
    if tx in s.active {
      CommitChain(s.rows, tx, Holder(h, s));
      CommitRowsOk(h, s, tx);
    }
  }

  lemma RollbackKeepsInv(h: Hash, s: State, tx: Tx)
    requires Inv(h, s)
    ensures Inv(h, Exec(h, s, Rollback(tx)))
  {
    if tx in s.active {
      RollbackChain(s.rows, tx);
    }
  }

  lemma StepKeepsInv(h: Hash, s: State, step: Step)
    requires Inv(h, s)
    ensures Inv(h, Exec(h, s, step))
  {
    match step
    case Begin(tx) =>
    case Lock(tx, t) =>
    case Insert(tx, t, kind, amount, order) => InsertKeepsInv(h, s, tx, t, kind, amount, order);
    case Commit(tx) => CommitKeepsInv(h, s, tx);
    case Release(tx) =>
    case Rollback(tx) => RollbackKeepsInv(h, s, tx);
  }

  lemma {:induction false} RunKeepsInv(h: Hash, s: State, steps: seq<Step>)
    requires Inv(h, s)
    ensures Inv(h, Run(h, s, steps))
    decreases |steps|
  {
    if steps != [] {
      StepKeepsInv(h, s, steps[0]);
      RunKeepsInv(h, Exec(h, s, steps[0]), steps[1..]);
    }
  }

  // ---- Balances ----

  lemma {:induction false} CommitKeepsBalances(rows: seq<Row>, tx: Tx, exact: set<nat>)
    requires Balances(rows, exact)
    ensures Balances(CommitRows(rows, tx), exact)
  {
    if rows != [] {
      CommitKeepsBalances(rows[..|rows| - 1], tx, exact);
      assert CommitRows(rows, tx)[..|rows| - 1] == CommitRows(rows[..|rows| - 1], tx);
      TotalCommit(rows, tx, rows[|rows| - 1].tank);
    }
  }

  lemma BalancesSnoc(rows: seq<Row>, last: Row, exact: set<nat>)
    requires Balances(rows, exact)
    requires last.balanceAfter == Total(rows, OnTank(last.tank)) + last.litres <==> last.num in exact
    ensures Balances(rows + [last], exact)
  {
    assert (rows + [last])[..|rows|] == rows;
    TotalSnoc(rows, last, OnTank(last.tank));
  }

  lemma {:induction false} BalancesWider(rows: seq<Row>, exact: set<nat>, more: set<nat>)
    requires Balances(rows, exact) && forall r :: r in rows ==> r.num !in more
    ensures Balances(rows, exact + more)
  {
    if rows != [] {
      BalancesWider(rows[..|rows| - 1], exact, more);
      assert rows[|rows| - 1] in rows;
    }
  }

  /** What a rollback removes comes after everything it leaves on the tank, so no balance loses a row
      it counted. */
  lemma {:induction false} RollbackKeepsBalances(rows: seq<Row>, tx: Tx, writer: Tank -> Tx, exact: set<nat>)
    requires Chain(rows) && Balances(rows, exact) && WrittenBy(rows, writer)
    ensures Balances(Select(rows, Kept(tx)), exact)
  {
    if rows != [] {
      var before, last := rows[..|rows| - 1], rows[|rows| - 1];
      RollbackKeepsBalances(before, tx, writer, exact);
      if Kept(tx)(last) {
        forall r | r in before && OnTank(last.tank)(r) ensures Kept(tx)(r) {
          assert r in rows && last in rows;
        }
        TotalSelect(before, OnTank(last.tank), Kept(tx));
        BalancesSnoc(Select(before, Kept(tx)), last, exact);
      }
    }
  }

  lemma InsertKeepsBalances(h: Hash, s: State, tx: Tx, t: Tank, kind: Kind, amount: real, order: Option<nat>,
                            exact: set<nat>)
    requires Inv(h, s) && Balances(s.rows, exact) && tx in s.active && Holds(h, s, tx, t) && s.nextSeq !in exact
    ensures var more := ExactStep(h, s, Insert(tx, t, kind, amount, order));
      Balances(s.rows + [NewRow(s, tx, t, kind, amount, order)], exact + more)
  {
    var r, more := NewRow(s, tx, t, kind, amount, order), ExactStep(h, s, Insert(tx, t, kind, amount, order));
    BalancesWider(s.rows, exact, more);
    InsertBalance(h, s, tx, t, kind, amount, order);
    TotalSnoc(s.rows, r, OnTank(t));
    BalancesSnoc(s.rows, r, exact + more);
  }

  lemma InsertStepBalances(h: Hash, s: State, step: Step, exact: set<nat>)
    requires Inv(h, s) && Balances(s.rows, exact) && s.nextSeq !in exact && step.Insert?
    ensures Balances(Exec(h, s, step).rows, exact + ExactStep(h, s, step))
  {
    if step.tx in s.active && Holds(h, s, step.tx, step.tank) {
      InsertKeepsBalances(h, s, step.tx, step.tank, step.kind, step.amount, step.order, exact);
    } else {
      assert exact + ExactStep(h, s, step) == exact;
    }
  }

  lemma StepKeepsBalances(h: Hash, s: State, step: Step, exact: set<nat>)
    requires Inv(h, s) && Balances(s.rows, exact) && s.nextSeq !in exact
    ensures Balances(Exec(h, s, step).rows, exact + ExactStep(h, s, step))
  {
    if step.Insert? {
      InsertStepBalances(h, s, step, exact);
    } else {
      OtherStepBalances(h, s, step, exact);
      assert exact + ExactStep(h, s, step) == exact;
    }
  }

  lemma HolderWrites(h: Hash, s: State)
    requires Inv(h, s)
    ensures WrittenBy(s.rows, Holder(h, s))
  {
  }

  lemma OtherStepBalances(h: Hash, s: State, step: Step, exact: set<nat>)
    requires Inv(h, s) && Balances(s.rows, exact) && !step.Insert?
    ensures Balances(Exec(h, s, step).rows, exact)
  {
    match step
    case Commit(tx) => CommitKeepsBalances(s.rows, tx, exact);
    case Rollback(tx) =>
      HolderWrites(h, s);
      RollbackKeepsBalances(s.rows, tx, Holder(h, s), exact);
    case _ =>
  }

  lemma StepKeepsBelow(h: Hash, s: State, step: Step, exact: set<nat>)
    requires forall n :: n in exact ==> n < s.nextSeq
    ensures forall n :: n in exact + ExactStep(h, s, step) ==> n < Exec(h, s, step).nextSeq
  {
  }

  lemma {:induction false} RunKeepsBalances(h: Hash, s: State, steps: seq<Step>, exact: set<nat>)
    requires Inv(h, s) && Balances(s.rows, exact) && forall n :: n in exact ==> n < s.nextSeq
    ensures Balances(Run(h, s, steps).rows, exact + ExactRows(h, s, steps))
    decreases |steps|
  {
    if steps == [] {
      assert exact + {} == exact;
    } else {
      var s', more := Exec(h, s, steps[0]), ExactStep(h, s, steps[0]);
      StepKeepsInv(h, s, steps[0]);
      StepKeepsBalances(h, s, steps[0], exact);
      StepKeepsBelow(h, s, steps[0], exact);
      RunKeepsBalances(h, s', steps[1..], exact + more);
      assert exact + more + ExactRows(h, s', steps[1..]) == exact + (more + ExactRows(h, s', steps[1..]));
    }
  }

  lemma {:induction false} BalanceAt(rows: seq<Row>, j: nat, exact: set<nat>)
    requires Balances(rows, exact) && j < |rows|
    ensures rows[j].balanceAfter == Total(rows[..j + 1], OnTank(rows[j].tank)) <==> rows[j].num in exact
  {
    if j == |rows| - 1 {
      assert rows[..j + 1] == rows;
    } else {
      BalanceAt(rows[..|rows| - 1], j, exact);
      assert rows[..|rows| - 1][..j + 1] == rows[..j + 1];
    }
  }

  lemma {:induction false} ChainAt(rows: seq<Row>, i: nat, j: nat)
    requires Chain(rows) && i < j < |rows|
    ensures rows[i].num < rows[j].num
    ensures rows[i].tank == rows[j].tank && !rows[i].committed ==> !rows[j].committed
  {
    if j == |rows| - 1 {
      assert rows[i] in rows[..|rows| - 1];
    } else {
      ChainAt(rows[..|rows| - 1], i, j);
    }
  }

  // ---- What readers rely on ----

  /** In every reachable state what is uncommitted on a tank comes after everything committed on it and
      belongs to the transaction holding the tank's lock.  Nothing is asked of the hash: tanks may
      share a key. */
  lemma UncommittedIsLockedSuffix(h: Hash, steps: seq<Step>, i: nat, j: nat)
    requires var s := Run(h, Init, steps); i < j < |s.rows|
    ensures var s := Run(h, Init, steps);
      && s.rows[i].num < s.rows[j].num
      && (s.rows[i].tank == s.rows[j].tank && s.rows[j].committed ==> s.rows[i].committed)
      && (!s.rows[i].committed ==> s.rows[i].owner in s.active && Holds(h, s, s.rows[i].owner, s.rows[i].tank))
  {
    var s := Run(h, Init, steps);
    RunKeepsInv(h, Init, steps);
    ChainAt(s.rows, i, j);
    assert s.rows[i] in s.rows;
  }

  /** In every reachable state a committed row carries the sum of the committed rows of its tank up to and
      including it if and only if the casts of its own insert agreed.  Nothing is asked of any other
      insert: a balance is taken from the sum of litres, so drift never carries from row to row. */
  lemma RunningBalances(h: Hash, steps: seq<Step>, j: nat)
    requires var s := Run(h, Init, steps); j < |s.rows| && s.rows[j].committed
    ensures var s := Run(h, Init, steps);
      s.rows[j].balanceAfter == Total(s.rows[..j + 1], VisibleOnTank(s.rows[j].tank, None))
      <==> s.rows[j].num in ExactRows(h, Init, steps)
  {
    var s := Run(h, Init, steps);
    RunKeepsInv(h, Init, steps);
    RunKeepsBalances(h, Init, steps, {});
    assert {} + ExactRows(h, Init, steps) == ExactRows(h, Init, steps);
    BalanceAt(s.rows, j, ExactRows(h, Init, steps));
    CommittedBefore(s.rows, j);
  }

  /** One transaction that posts one movement. */
  function Posting(tx: Tx, t: Tank, kind: Kind, amount: real): seq<Step> {
    [Begin(tx), Lock(tx, t), Insert(tx, t, kind, amount, None), Commit(tx), Release(tx)]
  }

  lemma RunCons(h: Hash, s: State, step: Step, rest: seq<Step>)
    ensures Run(h, s, [step] + rest) == Run(h, Exec(h, s, step), rest)
  {
    assert ([step] + rest)[1..] == rest;
  }

  lemma {:induction false} RunAppend(h: Hash, s: State, steps: seq<Step>, more: seq<Step>)
    ensures Run(h, s, steps + more) == Run(h, Run(h, s, steps), more)
    decreases |steps|
  {
    if steps == [] {
      assert steps + more == more;
    } else {
      assert (steps + more)[1..] == steps[1..] + more;
      RunAppend(h, Exec(h, s, steps[0]), steps[1..], more);
    }
  }

  /** The tank's key is free, and nothing is left over from an earlier transaction of this number. */
  predicate Unused(h: Hash, s: State, tx: Tx, t: Tank) {
    && tx !in s.active && tx !in s.ending && h(t.id) !in s.locks
    && (forall k :: k in s.locks ==> s.locks[k] != tx)
    && (forall r :: r in s.rows && r.owner == tx ==> r.committed)
  }

  lemma InsertAlone(h: Hash, s: State, tx: Tx, t: Tank, kind: Kind, amount: real)
    requires Unused(h, s, tx, t)
    ensures var held := s.(active := s.active + {tx}, locks := s.locks[h(t.id) := tx]);
      Run(h, s, [Begin(tx), Lock(tx, t), Insert(tx, t, kind, amount, None)])
      == held.(rows := s.rows + [NewRow(s, tx, t, kind, amount, None)], nextSeq := s.nextSeq + 1)
  {
    var begun := Exec(h, s, Begin(tx));
    var locked := Exec(h, begun, Lock(tx, t));
    RunCons(h, locked, Insert(tx, t, kind, amount, None), []);
    RunCons(h, begun, Lock(tx, t), [Insert(tx, t, kind, amount, None)]);
    RunCons(h, s, Begin(tx), [Lock(tx, t), Insert(tx, t, kind, amount, None)]);
  }

  lemma CommitOwn(rows: seq<Row>, r: Row)
    requires forall q :: q in rows && q.owner == r.owner ==> q.committed
    ensures CommitRows(rows + [r], r.owner) == rows + [r.(committed := true)]
  {
    assert (rows + [r])[..|rows|] == rows;
    CommitNothing(rows, r.owner);
  }

  lemma FreeOnly(locks: map<int, Tx>, k: int, tx: Tx)
    requires k !in locks && forall j :: j in locks ==> locks[j] != tx
    ensures Free(locks[k := tx], tx) == locks
  {
    var freed := Free(locks[k := tx], tx);
    assert forall j :: j in freed <==> j in locks;
    assert freed == locks;
  }

  lemma EndAlone(h: Hash, s: State, tx: Tx, k: int, r: Row)
    requires tx !in s.active && tx !in s.ending && k !in s.locks && (forall j :: j in s.locks ==> s.locks[j] != tx)
    requires r.owner == tx && forall q :: q in s.rows && q.owner == tx ==> q.committed
    ensures Run(h, s.(rows := s.rows + [r], active := s.active + {tx}, locks := s.locks[k := tx]),
        [Commit(tx), Release(tx)])
         == s.(rows := s.rows + [r.(committed := true)])
  {
    var held := s.(rows := s.rows + [r], active := s.active + {tx}, locks := s.locks[k := tx]);
    var done := Exec(h, held, Commit(tx));
    CommitOwn(s.rows, r);
    FreeOnly(s.locks, k, tx);
    assert done.active == s.active && done.ending - {tx} == s.ending;
    RunCons(h, done, Release(tx), []);
    RunCons(h, held, Commit(tx), [Release(tx)]);
  }

  /** Alone, a posting appends its row, committed, and leaves no lock behind. */
  lemma PostingRuns(h: Hash, s: State, tx: Tx, t: Tank, kind: Kind, amount: real)
    requires Unused(h, s, tx, t)
    ensures Run(h, s, Posting(tx, t, kind, amount))
         == s.(rows := s.rows + [NewRow(s, tx, t, kind, amount, None).(committed := true)], nextSeq := s.nextSeq + 1)
  {
    var front := [Begin(tx), Lock(tx, t), Insert(tx, t, kind, amount, None)];
    InsertAlone(h, s, tx, t, kind, amount);
    EndAlone(h, s.(nextSeq := s.nextSeq + 1), tx, h(t.id), NewRow(s, tx, t, kind, amount, None));
    RunAppend(h, s, front, [Commit(tx), Release(tx)]);
    assert Posting(tx, t, kind, amount) == front + [Commit(tx), Release(tx)];
  }

  /** The rows a posting leaves, with the balance it found on the tank. */
  lemma PostedRow(h: Hash, s: State, tx: Tx, t: Tank, kind: Kind, amount: real, balance: int)
    requires Unused(h, s, tx, t) && Total(s.rows, VisibleOnTank(t, Some(tx))) == balance
    ensures var r := Row(s.nextSeq, t, kind, Round(amount), Round(balance as real + amount), None, tx, true);
      Run(h, s, Posting(tx, t, kind, amount)) == s.(rows := s.rows + [r], nextSeq := s.nextSeq + 1)
  {
    PostingRuns(h, s, tx, t, kind, amount);
    NewRowIs(s, tx, t, kind, amount, balance);
  }

  lemma NewRowIs(s: State, tx: Tx, t: Tank, kind: Kind, amount: real, balance: int)
    requires Total(s.rows, VisibleOnTank(t, Some(tx))) == balance
    ensures NewRow(s, tx, t, kind, amount, None)
         == Row(s.nextSeq, t, kind, Round(amount), Round(balance as real + amount), None, tx, false)
  {
  }

  lemma OpeningPosted(h: Hash, t: Tank)
    ensures var r := Row(1, t, Opening, 10000, 10000, None, 1, true);
      Run(h, Init, Posting(1, t, Opening, 10000.0)) == Init.(rows := [r], nextSeq := 2)
  {
    RoundOfStored(10000);
    PostedRow(h, Init, 1, t, Opening, 10000.0, 0);
    assert [] + [Row(1, t, Opening, 10000, 10000, None, 1, true)] == [Row(1, t, Opening, 10000, 10000, None, 1, true)];
  }

  lemma OneRow(r: Row, p: Row -> bool)
    ensures Total([r], p) == if p(r) then r.litres else 0
  {
    assert [] + [r] == [r];
    TotalSnoc([], r, p);
  }

  lemma TwoRows(a: Row, b: Row, p: Row -> bool)
    ensures Total([a] + [b], p) == (if p(a) then a.litres else 0) + (if p(b) then b.litres else 0)
  {
    OneRow(a, p);
    TotalSnoc([a], b, p);
  }

  lemma HalfRounds()
    ensures Round(-0.5) == -1 && Round(10000.0 + -0.5) == 10000
  {
    assert (0.5 + 0.5).Floor == 1 && (9999.5 + 0.5).Floor == 10000;
  }

  /** Half a thousandth taken out of a tank with one opening row. */
  lemma HalfTaken(h: Hash, t: Tank, s: State, first: Row)
    requires first == Row(1, t, Opening, 10000, 10000, None, 1, true) && s == Init.(rows := [first], nextSeq := 2)
    ensures Run(h, s, Posting(2, t, Adjustment, -0.5)).rows
         == [first] + [Row(2, t, Adjustment, -1, 10000, None, 2, true)]
  {
    HalfRounds();
    OneRow(first, VisibleOnTank(t, Some(2)));
    PostedRow(h, s, 2, t, Adjustment, -0.5, 10000);
  }

  /** Ten litres in the tank, half a millilitre taken out: the row says one thousandth left the tank and the
      balance says nothing did. */
  lemma HalfwayAmountDrifts(h: Hash, t: Tank)
    ensures var rows := Run(h, Init, Posting(1, t, Opening, 10000.0) + Posting(2, t, Adjustment, -0.5)).rows;
      && |rows| == 2 && rows[1].committed && rows[1].litres == -1 && rows[1].balanceAfter == 10000
      && Total(rows, VisibleOnTank(t, None)) == 9999
  {
    var first := Row(1, t, Opening, 10000, 10000, None, 1, true);
    var second := Row(2, t, Adjustment, -1, 10000, None, 2, true);
    RunAppend(h, Init, Posting(1, t, Opening, 10000.0), Posting(2, t, Adjustment, -0.5));
    OpeningPosted(h, t);
    HalfTaken(h, t, Init.(rows := [first], nextSeq := 2), first);
    TwoRows(first, second, VisibleOnTank(t, None));
  }

  lemma CommittedBefore(rows: seq<Row>, j: nat)
    requires Chain(rows) && j < |rows| && rows[j].committed
    ensures Total(rows[..j + 1], OnTank(rows[j].tank)) == Total(rows[..j + 1], VisibleOnTank(rows[j].tank, None))
  {
    forall r | r in rows[..j + 1] && r.tank == rows[j].tank ensures r.committed {
      var i :| 0 <= i < j + 1 && rows[..j + 1][i] == r;
      if i < j {
        ChainAt(rows, i, j);
      }
    }
    TotalSame(rows[..j + 1], OnTank(rows[j].tank), VisibleOnTank(rows[j].tank, None));
  }

  // ---- Watermarks ----

  function UpTo(t: Tank, mark: nat): Row -> bool {
    (r: Row) => r.tank == t && r.num <= mark
  }

  /** The rows `PeriodTotalsSince` sums for a reader, cut off at a watermark. */
  function SeenIn(t: Tank, kind: Kind, fromSeq: nat, mark: nat, reader: Option<Tx>): Row -> bool {
    (r: Row) => r.tank == t && Visible(r, reader) && r.kind == kind && fromSeq < r.num <= mark
  }

  /** Up to the watermark a tank holds nothing uncommitted and nothing can be added. */
  predicate Frozen(s: State, t: Tank, mark: nat) {
    mark < s.nextSeq && FrozenRows(s.rows, t, mark)
  }

  predicate FrozenRows(rows: seq<Row>, t: Tank, mark: nat) {
    forall r :: r in rows && r.tank == t && r.num <= mark ==> r.committed
  }

  lemma {:induction false} CommitKeepsFrozenRows(rows: seq<Row>, tx: Tx, p: Row -> bool)
    requires forall r :: r in rows && (p(r) || p(r.(committed := true))) && r.owner == tx ==> r.committed
    ensures Select(CommitRows(rows, tx), p) == Select(rows, p)
  {
    if rows != [] {
      var before, last := rows[..|rows| - 1], rows[|rows| - 1];
      CommitKeepsFrozenRows(before, tx, p);
      assert CommitRows(rows, tx)[..|rows| - 1] == CommitRows(before, tx);
      assert last in rows;
    }
  }

  lemma {:induction false} RollbackKeepsRows(rows: seq<Row>, tx: Tx, p: Row -> bool)
    requires forall r :: r in rows && p(r) ==> Kept(tx)(r)
    ensures Select(Select(rows, Kept(tx)), p) == Select(rows, p)
  {
    if rows != [] {
      var before, last := rows[..|rows| - 1], rows[|rows| - 1];
      RollbackKeepsRows(before, tx, p);
      if Kept(tx)(last) {
        SelectSnoc(Select(before, Kept(tx)), last, p);
      }
    }
  }

  lemma CommitKeepsFrozen(rows: seq<Row>, tx: Tx, t: Tank, mark: nat)
    requires FrozenRows(rows, t, mark)
    ensures FrozenRows(CommitRows(rows, tx), t, mark)
    ensures Select(CommitRows(rows, tx), UpTo(t, mark)) == Select(rows, UpTo(t, mark))
  {
    CommitKeepsFrozenRows(rows, tx, UpTo(t, mark));
    var out := CommitRows(rows, tx);
    forall r | r in out && r.tank == t && r.num <= mark ensures r.committed {
      var i :| 0 <= i < |out| && out[i] == r;
      assert rows[i] in rows;
    }
  }

  lemma RollbackKeepsFrozen(rows: seq<Row>, tx: Tx, t: Tank, mark: nat)
    requires FrozenRows(rows, t, mark)
    ensures FrozenRows(Select(rows, Kept(tx)), t, mark)
    ensures Select(Select(rows, Kept(tx)), UpTo(t, mark)) == Select(rows, UpTo(t, mark))
  {
    RollbackKeepsRows(rows, tx, UpTo(t, mark));
  }

  /** A row above the mark is not among the rows up to it. */
  lemma AppendAbove(rows: seq<Row>, r: Row, t: Tank, mark: nat)
    requires mark < r.num
    ensures Select(rows + [r], UpTo(t, mark)) == Select(rows, UpTo(t, mark))
    ensures FrozenRows(rows, t, mark) ==> FrozenRows(rows + [r], t, mark)
  {
    SelectSnoc(rows, r, UpTo(t, mark));
  }

  lemma StepKeepsFrozen(h: Hash, s: State, step: Step, t: Tank, mark: nat)
    requires Frozen(s, t, mark)
    ensures Frozen(Exec(h, s, step), t, mark)
    ensures Select(Exec(h, s, step).rows, UpTo(t, mark)) == Select(s.rows, UpTo(t, mark))
  {
    match step
    case Insert(tx, u, kind, amount, order) => AppendAbove(s.rows, NewRow(s, tx, u, kind, amount, order), t, mark);
    case Commit(tx) => CommitKeepsFrozen(s.rows, tx, t, mark);
    case Rollback(tx) => RollbackKeepsFrozen(s.rows, tx, t, mark);
    case _ =>
  }

  lemma {:induction false} RunKeepsFrozen(h: Hash, s: State, steps: seq<Step>, t: Tank, mark: nat)
    requires Frozen(s, t, mark)
    ensures Select(Run(h, s, steps).rows, UpTo(t, mark)) == Select(s.rows, UpTo(t, mark))
    decreases |steps|
  {
    if steps != [] {
      StepKeepsFrozen(h, s, steps[0], t, mark);
      RunKeepsFrozen(h, Exec(h, s, steps[0]), steps[1..], t, mark);
    }
  }

  /** Once a reader outside any transaction has seen MAX(seq) for a tank, the tank's rows up to
      that mark never change again, whatever transactions do afterwards, so every period sum
      ending there is final. */
  lemma WatermarkIsFinal(h: Hash, past: seq<Step>, future: seq<Step>, t: Tank, kind: Kind, fromSeq: nat)
    ensures var s := Run(h, Init, past);
      var later := Run(h, s, future);
      var mark := MaxSeq(s.rows, t, None);
      && Select(later.rows, UpTo(t, mark)) == Select(s.rows, UpTo(t, mark))
      && (forall r :: r in Select(s.rows, UpTo(t, mark)) ==> r.committed)
      && Total(later.rows, SeenIn(t, kind, fromSeq, mark, None)) == Total(s.rows, SeenIn(t, kind, fromSeq, mark, None))
  {
    RunKeepsInv(h, Init, past);
    var s := Run(h, Init, past);
    var later := Run(h, s, future);
    var mark := MaxSeq(s.rows, t, None);
    VisibleUpToMark(h, s, t, None);
    RunKeepsFrozen(h, s, future, t, mark);
    TotalSelect(s.rows, SeenIn(t, kind, fromSeq, mark, None), UpTo(t, mark));
    TotalSelect(later.rows, SeenIn(t, kind, fromSeq, mark, None), UpTo(t, mark));
  }

  lemma VisibleBefore(h: Hash, s: State, i: nat, j: nat, reader: Option<Tx>)
    requires Inv(h, s) && i < |s.rows| && j < |s.rows| && s.rows[i].tank == s.rows[j].tank
    requires s.rows[i].num <= s.rows[j].num && Visible(s.rows[j], reader)
    ensures Visible(s.rows[i], reader)
  {
    assert s.rows[i] in s.rows && s.rows[j] in s.rows;
    if i < j {
      ChainAt(s.rows, i, j);
    } else if j < i {
      ChainAt(s.rows, j, i);
    }
  }

  /** A reader sees every row of the tank up to the highest one it sees. */
  lemma VisibleUpToMark(h: Hash, s: State, t: Tank, reader: Option<Tx>)
    requires Inv(h, s)
    ensures var mark := MaxSeq(s.rows, t, reader);
      && mark < s.nextSeq
      && (forall r :: r in s.rows && r.tank == t && r.num <= mark ==> Visible(r, reader))
  {
    var mark := MaxSeq(s.rows, t, reader);
    forall r | r in s.rows && r.tank == t && r.num <= mark ensures Visible(r, reader) {
      var top :| top in s.rows && top.tank == t && Visible(top, reader) && top.num == mark;
      var i :| 0 <= i < |s.rows| && s.rows[i] == r;
      var j :| 0 <= j < |s.rows| && s.rows[j] == top;
      VisibleBefore(h, s, i, j, reader);
    }
  }

  // ---- Watermarks read inside a transaction ----

  /** How a transaction first ends in what follows. */
  datatype Fate = StillOpen | ByCommit | ByRollback

  function FateOf(steps: seq<Step>, tx: Tx): Fate {
    if steps == [] then StillOpen
    else if steps[0] == Commit(tx) then ByCommit
    else if steps[0] == Rollback(tx) then ByRollback
    else FateOf(steps[1..], tx)
  }

  /** What becomes of the rows the transaction saw. */
  function Settled(seen: seq<Row>, tx: Tx, fate: Fate): seq<Row> {
    match fate
    case StillOpen => seen
    case ByCommit => CommitRows(seen, tx)
    case ByRollback => Select(seen, Kept(tx))
  }

  /** The rows of a period, whoever sees them. */
  function Between(t: Tank, kind: Kind, fromSeq: nat, mark: nat): Row -> bool {
    (r: Row) => r.tank == t && r.kind == kind && fromSeq < r.num <= mark
  }

  predicate SeenUpTo(s: State, t: Tank, mark: nat, tx: Tx) {
    mark < s.nextSeq && SeenRows(s.rows, t, mark, tx)
  }

  predicate SeenRows(rows: seq<Row>, t: Tank, mark: nat, tx: Tx) {
    forall r :: r in rows && r.tank == t && r.num <= mark ==> Visible(r, Some(tx))
  }

  lemma {:induction false} CommitCommutes(rows: seq<Row>, tx: Tx, t: Tank, mark: nat)
    ensures Select(CommitRows(rows, tx), UpTo(t, mark)) == CommitRows(Select(rows, UpTo(t, mark)), tx)
  {
    if rows != [] {
      var before, last := rows[..|rows| - 1], rows[|rows| - 1];
      CommitCommutes(before, tx, t, mark);
      assert CommitRows(rows, tx)[..|rows| - 1] == CommitRows(before, tx);
      if UpTo(t, mark)(last) {
        var front := Select(before, UpTo(t, mark));
        assert (front + [last])[..|front|] == front;
      }
    }
  }

  lemma {:induction false} RollbackCommutes(rows: seq<Row>, tx: Tx, t: Tank, mark: nat)
    ensures Select(Select(rows, Kept(tx)), UpTo(t, mark)) == Select(Select(rows, UpTo(t, mark)), Kept(tx))
  {
    if rows != [] {
      var before, last := rows[..|rows| - 1], rows[|rows| - 1];
      RollbackCommutes(before, tx, t, mark);
      SelectSnoc(Select(before, Kept(tx)), last, UpTo(t, mark));
      SelectSnoc(Select(before, UpTo(t, mark)), last, Kept(tx));
    }
  }

  lemma {:induction false} CommitNothing(rows: seq<Row>, tx: Tx)
    requires forall r :: r in rows && r.owner == tx ==> r.committed
    ensures CommitRows(rows, tx) == rows
  {
    forall i | 0 <= i < |rows| ensures CommitRows(rows, tx)[i] == rows[i] {
      assert rows[i] in rows;
    }
  }

  lemma {:induction false} KeptAll(rows: seq<Row>, tx: Tx)
    requires forall i :: 0 <= i < |rows| ==> rows[i].committed
    ensures Select(rows, Kept(tx)) == rows
  {
    if rows != [] {
      var before, last := rows[..|rows| - 1], rows[|rows| - 1];
      KeptAll(before, tx);
      SelectSnoc(before, last, Kept(tx));
      assert before + [last] == rows;
    }
  }

  lemma InsertLeavesSeen(h: Hash, s: State, step: Step, t: Tank, mark: nat)
    requires mark < s.nextSeq && step.Insert?
    ensures Select(Exec(h, s, step).rows, UpTo(t, mark)) == Select(s.rows, UpTo(t, mark))
    ensures mark < Exec(h, s, step).nextSeq
  {
    AppendAbove(s.rows, NewRow(s, step.tx, step.tank, step.kind, step.amount, step.order), t, mark);
  }

  lemma EndLeavesSeen(h: Hash, s: State, step: Step, t: Tank, mark: nat, tx: Tx)
    requires SeenUpTo(s, t, mark, tx) && (step.Commit? || step.Rollback?) && step.tx != tx
    ensures Select(Exec(h, s, step).rows, UpTo(t, mark)) == Select(s.rows, UpTo(t, mark))
    ensures Exec(h, s, step).nextSeq == s.nextSeq
  {
    CommitLeavesSeen(s.rows, step.tx, t, mark, tx);
    RollbackLeavesSeen(s.rows, step.tx, t, mark, tx);
  }

  /** A step that does not end the transaction leaves what it saw alone. */
  lemma OtherStepKeepsSeen(h: Hash, s: State, step: Step, t: Tank, mark: nat, tx: Tx)
    requires SeenUpTo(s, t, mark, tx) && step != Commit(tx) && step != Rollback(tx)
    ensures Select(Exec(h, s, step).rows, UpTo(t, mark)) == Select(s.rows, UpTo(t, mark))
    ensures SeenUpTo(Exec(h, s, step), t, mark, tx)
  {
    if step.Insert? {
      InsertLeavesSeen(h, s, step, t, mark);
    } else if step.Commit? || step.Rollback? {
      EndLeavesSeen(h, s, step, t, mark, tx);
    }
    SameSeen(s, Exec(h, s, step), t, mark, tx);
  }

  lemma CommitLeavesSeen(rows: seq<Row>, other: Tx, t: Tank, mark: nat, tx: Tx)
    requires other != tx && SeenRows(rows, t, mark, tx)
    ensures Select(CommitRows(rows, other), UpTo(t, mark)) == Select(rows, UpTo(t, mark))
  {
    CommitKeepsFrozenRows(rows, other, UpTo(t, mark));
  }

  lemma RollbackLeavesSeen(rows: seq<Row>, other: Tx, t: Tank, mark: nat, tx: Tx)
    requires other != tx && SeenRows(rows, t, mark, tx)
    ensures Select(Select(rows, Kept(other)), UpTo(t, mark)) == Select(rows, UpTo(t, mark))
  {
    RollbackKeepsRows(rows, other, UpTo(t, mark));
  }

  lemma SameSeen(s: State, s': State, t: Tank, mark: nat, tx: Tx)
    requires SeenUpTo(s, t, mark, tx) && mark < s'.nextSeq
    requires Select(s'.rows, UpTo(t, mark)) == Select(s.rows, UpTo(t, mark))
    ensures SeenUpTo(s', t, mark, tx)
  {
    forall r | r in s'.rows && r.tank == t && r.num <= mark ensures Visible(r, Some(tx)) {
      assert r in Select(s'.rows, UpTo(t, mark));
    }
  }

  /** Everything a transaction that is not open saw is committed, so no ending of it matters. */
  lemma NothingOpen(h: Hash, s: State, t: Tank, mark: nat, tx: Tx, fate: Fate)
    requires Inv(h, s) && SeenUpTo(s, t, mark, tx) && tx !in s.active
    ensures Frozen(s, t, mark)
    ensures var seen := Select(s.rows, UpTo(t, mark)); Settled(seen, tx, fate) == seen
  {
    var seen := Select(s.rows, UpTo(t, mark));
    forall i | 0 <= i < |seen| ensures seen[i].committed {
      assert seen[i] in seen;
    }
    CommitNothing(seen, tx);
    KeptAll(seen, tx);
  }

  lemma CommitFreezes(rows: seq<Row>, t: Tank, mark: nat, tx: Tx)
    requires SeenRows(rows, t, mark, tx)
    ensures FrozenRows(CommitRows(rows, tx), t, mark)
    ensures Select(CommitRows(rows, tx), UpTo(t, mark)) == CommitRows(Select(rows, UpTo(t, mark)), tx)
  {
    CommitCommutes(rows, tx, t, mark);
    var out := CommitRows(rows, tx);
    forall r | r in out && r.tank == t && r.num <= mark ensures r.committed {
      var i :| 0 <= i < |out| && out[i] == r;
      assert rows[i] in rows;
    }
  }

  lemma RollbackFreezes(rows: seq<Row>, t: Tank, mark: nat, tx: Tx)
    requires SeenRows(rows, t, mark, tx)
    ensures FrozenRows(Select(rows, Kept(tx)), t, mark)
    ensures Select(Select(rows, Kept(tx)), UpTo(t, mark)) == Select(Select(rows, UpTo(t, mark)), Kept(tx))
  {
    RollbackCommutes(rows, tx, t, mark);
  }

  lemma CommitSettles(h: Hash, s: State, rest: seq<Step>, t: Tank, mark: nat, tx: Tx)
    requires SeenUpTo(s, t, mark, tx) && tx in s.active
    ensures Select(Run(h, Exec(h, s, Commit(tx)), rest).rows, UpTo(t, mark))
         == CommitRows(Select(s.rows, UpTo(t, mark)), tx)
  {
    CommitFreezes(s.rows, t, mark, tx);
    RunKeepsFrozen(h, Exec(h, s, Commit(tx)), rest, t, mark);
  }

  lemma RollbackSettles(h: Hash, s: State, rest: seq<Step>, t: Tank, mark: nat, tx: Tx)
    requires SeenUpTo(s, t, mark, tx) && tx in s.active
    ensures Select(Run(h, Exec(h, s, Rollback(tx)), rest).rows, UpTo(t, mark))
         == Select(Select(s.rows, UpTo(t, mark)), Kept(tx))
  {
    RollbackFreezes(s.rows, t, mark, tx);
    RunKeepsFrozen(h, Exec(h, s, Rollback(tx)), rest, t, mark);
  }

  /** The rows a transaction saw change in one way only: they are committed or rolled back with it. */
  lemma {:induction false} RunSettlesSeen(h: Hash, s: State, steps: seq<Step>, t: Tank, mark: nat, tx: Tx)
    requires Inv(h, s) && SeenUpTo(s, t, mark, tx)
    ensures Select(Run(h, s, steps).rows, UpTo(t, mark))
        == Settled(Select(s.rows, UpTo(t, mark)), tx, FateOf(steps, tx))
    decreases |steps|
  {
    if tx !in s.active {
      NothingOpen(h, s, t, mark, tx, FateOf(steps, tx));
      RunKeepsFrozen(h, s, steps, t, mark);
    } else if steps != [] {
      var step, rest := steps[0], steps[1..];
      if step == Commit(tx) {
        CommitSettles(h, s, rest, t, mark, tx);
      } else if step == Rollback(tx) {
        RollbackSettles(h, s, rest, t, mark, tx);
      } else {
        OtherStepKeepsSeen(h, s, step, t, mark, tx);
        StepKeepsInv(h, s, step);
        RunSettlesSeen(h, Exec(h, s, step), rest, t, mark, tx);
      }
    }
  }

  // ---- What the settled rows sum to ----

  lemma {:induction false} CommitKeepsSums(rows: seq<Row>, tx: Tx, t: Tank, kind: Kind, fromSeq: nat, mark: nat)
    ensures Total(CommitRows(rows, tx), Between(t, kind, fromSeq, mark)) == Total(rows, Between(t, kind, fromSeq, mark))
  {
    if rows != [] {
      CommitKeepsSums(rows[..|rows| - 1], tx, t, kind, fromSeq, mark);
      assert CommitRows(rows, tx)[..|rows| - 1] == CommitRows(rows[..|rows| - 1], tx);
    }
  }

  /** Where every row of the tank up to the mark is seen, what is seen is what is there. */
  lemma SumOfSeen(rows: seq<Row>, t: Tank, kind: Kind, fromSeq: nat, mark: nat, reader: Option<Tx>)
    requires forall r :: r in Select(rows, UpTo(t, mark)) ==> Visible(r, reader)
    ensures Total(rows, SeenIn(t, kind, fromSeq, mark, reader))
         == Total(Select(rows, UpTo(t, mark)), Between(t, kind, fromSeq, mark))
  {
    TotalSame(rows, SeenIn(t, kind, fromSeq, mark, reader), Between(t, kind, fromSeq, mark)) by {
      forall r | r in rows
        ensures SeenIn(t, kind, fromSeq, mark, reader)(r) == Between(t, kind, fromSeq, mark)(r)
      {
        assert UpTo(t, mark)(r) ==> r in Select(rows, UpTo(t, mark));
      }
    }
    TotalSelect(rows, Between(t, kind, fromSeq, mark), UpTo(t, mark));
  }

  /** The rows of the tank up to a transaction's own watermark never change again except by the fate of that
      transaction: a commit makes its own rows among them committed, a rollback removes these and nothing
      else does anything.  So the period sums it saw are final once it has committed, and can
      only change by its rollback, which takes exactly its own rows out of them. */
  lemma WatermarkInTransaction(h: Hash, past: seq<Step>, future: seq<Step>, t: Tank, tx: Tx, kind: Kind, fromSeq: nat)
    ensures var s := Run(h, Init, past);
      var later, mark, fate := Run(h, s, future), MaxSeq(s.rows, t, Some(tx)), FateOf(future, tx);
      var seen := Total(s.rows, SeenIn(t, kind, fromSeq, mark, Some(tx)));
      var now := Total(later.rows, SeenIn(t, kind, fromSeq, mark, Some(tx)));
      && Select(later.rows, UpTo(t, mark)) == Settled(Select(s.rows, UpTo(t, mark)), tx, fate)
      && (fate.ByCommit? ==> Total(later.rows, SeenIn(t, kind, fromSeq, mark, None)) == seen)
      && (fate.ByRollback? ==> now == Total(s.rows, SeenIn(t, kind, fromSeq, mark, None)))
      && (now == seen <==> !fate.ByRollback? || seen == Total(s.rows, SeenIn(t, kind, fromSeq, mark, None)))
  {
    RunKeepsInv(h, Init, past);
    var s := Run(h, Init, past);
    var later, mark, fate := Run(h, s, future), MaxSeq(s.rows, t, Some(tx)), FateOf(future, tx);
    VisibleUpToMark(h, s, t, Some(tx));
    RunSettlesSeen(h, s, future, t, mark, tx);
    SettledSums(s.rows, later.rows, t, kind, fromSeq, mark, tx, fate);
  }

  lemma SettledSums(rows: seq<Row>, later: seq<Row>, t: Tank, kind: Kind, fromSeq: nat, mark: nat, tx: Tx, fate: Fate)
    requires forall r :: r in Select(rows, UpTo(t, mark)) ==> Visible(r, Some(tx))
    requires Select(later, UpTo(t, mark)) == Settled(Select(rows, UpTo(t, mark)), tx, fate)
    ensures var seen := Total(rows, SeenIn(t, kind, fromSeq, mark, Some(tx)));
      var now := Total(later, SeenIn(t, kind, fromSeq, mark, Some(tx)));
      && (!fate.ByRollback? ==> now == seen)
      && (fate.ByCommit? ==> Total(later, SeenIn(t, kind, fromSeq, mark, None)) == seen)
      && (fate.ByRollback? ==> now == Total(rows, SeenIn(t, kind, fromSeq, mark, None)))
  {
    var seen, settled := Select(rows, UpTo(t, mark)), Select(later, UpTo(t, mark));
    SumOfSeen(rows, t, kind, fromSeq, mark, Some(tx));
    match fate
    case StillOpen => SumOfSeen(later, t, kind, fromSeq, mark, Some(tx));
    case ByCommit =>
      forall r | r in settled ensures r.committed {
        var i :| 0 <= i < |settled| && settled[i] == r;
        assert seen[i] in seen;
      }
      SumOfSeen(later, t, kind, fromSeq, mark, Some(tx));
      SumOfSeen(later, t, kind, fromSeq, mark, None);
      CommitKeepsSums(seen, tx, t, kind, fromSeq, mark);
    case ByRollback =>
      SumOfSeen(later, t, kind, fromSeq, mark, Some(tx));
      KeptSums(rows, t, kind, fromSeq, mark, tx);
  }

  lemma KeptSums(rows: seq<Row>, t: Tank, kind: Kind, fromSeq: nat, mark: nat, tx: Tx)
    requires forall r :: r in Select(rows, UpTo(t, mark)) ==> Visible(r, Some(tx))
    ensures Total(Select(Select(rows, UpTo(t, mark)), Kept(tx)), Between(t, kind, fromSeq, mark))
         == Total(rows, SeenIn(t, kind, fromSeq, mark, None))
  {
    var seen, p := Select(rows, UpTo(t, mark)), SeenIn(t, kind, fromSeq, mark, None);
    TotalSelect(rows, p, UpTo(t, mark));
    TotalSelect(seen, p, Kept(tx));
    TotalSame(Select(seen, Kept(tx)), p, Between(t, kind, fromSeq, mark));
  }
}

/** Receiving stock transfers, interleaved with each other and with any other ledger traffic.

A receive locks its order row, re-reads the status, takes the advisory keys of both tanks in
ascending order, checks the source balance, posts the two legs, marks the order received and
commits.  Each `Advance` is one of those statements; `Abort` is an error return or a crash.
 */
module Transfers {
  import opened Numeric
  import opened StockLedger
  import opened Wrappers

  datatype Status = Draft | Approved | Dispatched | Received | Cancelled

  datatype Order = Order(source: Tank, target: Tank, product: nat, litres: int, status: Status)

  datatype Pc = WantsOrder | WantsLowKey | WantsHighKey | ChecksStock | PostsOut | PostsIn | Commits

  datatype Job = Job(order: nat, pc: Pc)

  datatype System = System(ledger: State, orders: map<nat, Order>, rowLocks: map<nat, Tx>, jobs: map<Tx, Job>)

  datatype Move =
    | Create(id: nat, order: Order)
    | Approve(id: nat)
    | Start(tx: Tx, id: nat)
    | Advance(tx: Tx)
    | Abort(tx: Tx)
    | Outside(step: Step)
    | OutsidePost(tx: Tx, tank: Tank, kind: Kind, amount: real)

  type Products = Tank -> nat

  const Empty := System(Init, map[], map[], map[])

  /** CHECK (litres > 0) and CHECK (from_tank_id <> to_tank_id). */
  predicate ValidOrder(o: Order) {
    o.litres > 0 && o.source != o.target
  }

  function LowTank(h: Hash, o: Order): Tank {
    if h(o.source.id) <= h(o.target.id) then o.source else o.target
  }

  function HighTank(h: Hash, o: Order): Tank {
    if h(o.source.id) <= h(o.target.id) then o.target else o.source
  }

  /** What receiving the order adds to its source tank. */
  function Outgoing(o: Order): int {
    -o.litres
  }

  function Aborted(h: Hash, s: System, tx: Tx): System
    requires tx in s.jobs
  {
    s.(ledger := Exec(h, s.ledger, Rollback(tx)), rowLocks := Unlock(s.rowLocks, tx), jobs := s.jobs - {tx})
  }

  function Unlock(locks: map<nat, Tx>, tx: Tx): map<nat, Tx> {
    map o | o in locks && locks[o] != tx :: locks[o]
  }

  /** `SELECT … FOR UPDATE` on the order, then the status and product checks. */
  function LockOrder(h: Hash, products: Products, s: System, tx: Tx): System
    requires tx in s.jobs
  {
    var id := s.jobs[tx].order;
    if id !in s.orders then Aborted(h, s, tx)
    else if id in s.rowLocks then s
    else
      var o := s.orders[id];
      if o.status !in {Approved, Dispatched} || products(o.source) != o.product || products(o.target) != o.product
      then Aborted(h, s, tx)
      else s.(rowLocks := s.rowLocks[id := tx], jobs := s.jobs[tx := Job(id, WantsLowKey)])
  }

  function TakeKey(h: Hash, s: System, tx: Tx, t: Tank, next: Pc): System
    requires tx in s.jobs
  {
    var locked := Exec(h, s.ledger, Lock(tx, t));
    if Holds(h, locked, tx, t)
    then s.(ledger := locked, jobs := s.jobs[tx := s.jobs[tx].(pc := next)]) else s
  }

  function PostLeg(h: Hash, s: System, tx: Tx, t: Tank, litres: int, next: Pc): System
    requires tx in s.jobs
  {
    s.(ledger := Exec(h, s.ledger, Insert(tx, t, Transfer, litres as real, Some(s.jobs[tx].order))),
       jobs := s.jobs[tx := s.jobs[tx].(pc := next)])
  }

  function Statement(h: Hash, products: Products, s: System, tx: Tx): System
    requires tx in s.jobs
  {
    var id := s.jobs[tx].order;
    if s.jobs[tx].pc.WantsOrder? then LockOrder(h, products, s, tx)
    else if id !in s.orders then s
    else
      var o := s.orders[id];
      match s.jobs[tx].pc
      case WantsOrder => s
      case WantsLowKey => TakeKey(h, s, tx, LowTank(h, o), WantsHighKey)
      case WantsHighKey => TakeKey(h, s, tx, HighTank(h, o), ChecksStock)
      case ChecksStock =>
        if Total(s.ledger.rows, VisibleOnTank(o.source, Some(tx))) >= o.litres
        then s.(jobs := s.jobs[tx := Job(id, PostsOut)]) else Aborted(h, s, tx)
      case PostsOut => PostLeg(h, s, tx, o.source, Outgoing(o), PostsIn)
      case PostsIn => PostLeg(h, s, tx, o.target, o.litres, Commits)
      case Commits => Finished(h, s, tx)
  }

  /** Mark the order received and commit. */
  function Finished(h: Hash, s: System, tx: Tx): System
    requires tx in s.jobs && s.jobs[tx].order in s.orders
  {
    var id := s.jobs[tx].order;
    s.(ledger := Exec(h, s.ledger, StockLedger.Commit(tx)), orders := s.orders[id := s.orders[id].(status := Received)],
       rowLocks := Unlock(s.rowLocks, tx), jobs := s.jobs - {tx})
  }

  function Apply(h: Hash, products: Products, s: System, m: Move): System {
    match m
    case Create(id, o) =>
      if id !in s.orders && ValidOrder(o) && o.status.Draft? then s.(orders := s.orders[id := o]) else s
    case Approve(id) =>
      if id in s.orders && id !in s.rowLocks && s.orders[id].status.Draft?
      then s.(orders := s.orders[id := s.orders[id].(status := Approved)]) else s
    case Start(tx, id) =>
      if tx in s.ledger.active + s.ledger.ending || tx in s.jobs then s
      else s.(ledger := Exec(h, s.ledger, Begin(tx)), jobs := s.jobs[tx := Job(id, WantsOrder)])
    case Advance(tx) => if tx in s.jobs then Statement(h, products, s, tx) else s
    case Abort(tx) => if tx in s.jobs then Aborted(h, s, tx) else s
    case Outside(step) =>
      if step.tx in s.jobs || step.Insert? then s else s.(ledger := Exec(h, s.ledger, step))
    case OutsidePost(tx, t, kind, amount) =>
      if tx in s.jobs then s else s.(ledger := Exec(h, s.ledger, Insert(tx, t, kind, amount, None)))
  }

  function RunMoves(h: Hash, products: Products, s: System, moves: seq<Move>): System
    decreases |moves|
  {
    if moves == [] then s else RunMoves(h, products, Apply(h, products, s, moves[0]), moves[1..])
  }

  // ---- Invariant ----

  function Own(tx: Tx): Row -> bool {
    (r: Row) => !r.committed && r.owner == tx
  }

  function LegOf(id: nat): Row -> bool {
    (r: Row) => r.committed && r.order == Some(id)
  }

  predicate OutLeg(r: Row, id: nat, o: Order) {
    r.tank == o.source && r.kind.Transfer? && r.litres == -o.litres && r.order == Some(id)
  }

  predicate InLeg(r: Row, id: nat, o: Order) {
    r.tank == o.target && r.kind.Transfer? && r.litres == o.litres && r.order == Some(id)
  }

  predicate BothLegs(rows: seq<Row>, id: nat, o: Order) {
    |rows| == 2 && OutLeg(rows[0], id, o) && InLeg(rows[1], id, o)
  }

  /** The keys a job holds are the ones its earlier statements asked for. */
  ghost predicate KeysHeld(h: Hash, s: System, tx: Tx)
    requires tx in s.jobs
  {
    var job, locks := s.jobs[tx], s.ledger.locks;
    if job.pc.WantsOrder? || job.pc.WantsLowKey? || job.order !in s.orders then
      forall k :: k in locks ==> locks[k] != tx
    else
      var o := s.orders[job.order];
      && Holds(h, s.ledger, tx, LowTank(h, o))
      && (if job.pc.WantsHighKey? then forall k :: k in locks && locks[k] == tx ==> k == h(LowTank(h, o).id)
          else Holds(h, s.ledger, tx, HighTank(h, o)))
  }

  ghost predicate RowsPosted(s: System, tx: Tx)
    requires tx in s.jobs && s.jobs[tx].order in s.orders
  {
    var id := s.jobs[tx].order;
    var o, own := s.orders[id], Select(s.ledger.rows, Own(tx));
    match s.jobs[tx].pc
    case PostsIn => |own| == 1 && OutLeg(own[0], id, o)
    case Commits => BothLegs(own, id, o)
    case _ => own == []
  }

  ghost predicate SourceCovered(s: System, tx: Tx)
    requires tx in s.jobs && s.jobs[tx].order in s.orders
  {
    var o := s.orders[s.jobs[tx].order];
    var balance := Total(s.ledger.rows, OnTank(o.source));
    match s.jobs[tx].pc
    case PostsOut => balance >= o.litres
    case PostsIn => balance >= 0
    case Commits => balance >= 0
    case _ => true
  }

  ghost predicate JobOk(h: Hash, s: System, tx: Tx)
    requires tx in s.jobs
  {
    var job := s.jobs[tx];
    && tx in s.ledger.active
    && KeysHeld(h, s, tx)
    && (if job.pc.WantsOrder? then Select(s.ledger.rows, Own(tx)) == []
        else
          && job.order in s.orders
          && job.order in s.rowLocks && s.rowLocks[job.order] == tx
          && s.orders[job.order].status in {Approved, Dispatched}
          && RowsPosted(s, tx)
          && SourceCovered(s, tx))
  }

  ghost predicate RowLocksOk(s: System) {
    forall id :: id in s.rowLocks ==>
      s.rowLocks[id] in s.jobs && s.jobs[s.rowLocks[id]].order == id && !s.jobs[s.rowLocks[id]].pc.WantsOrder?
  }

  ghost predicate JobsOk(h: Hash, s: System) {
    forall tx {:trigger JobOk(h, s, tx)} :: tx in s.jobs ==> JobOk(h, s, tx)
  }

  /** Uncommitted legs belong to the job of their order. */
  ghost predicate PendingOk(s: System) {
    forall r :: r in s.ledger.rows && !r.committed && r.order.Some? ==>
      r.owner in s.jobs && s.jobs[r.owner].order == r.order.value
  }

  /** An order has both legs on the committed ledger when it is received, and none before. */
  ghost predicate LegsOkFor(s: System, id: nat) {
    if id in s.orders && s.orders[id].status.Received?
    then BothLegs(Select(s.ledger.rows, LegOf(id)), id, s.orders[id])
    else Select(s.ledger.rows, LegOf(id)) == []
  }

  ghost predicate LegsOk(s: System) {
    && (forall id :: id in s.orders ==> ValidOrder(s.orders[id]))
    && (forall id :: LegsOkFor(s, id))
  }

  ghost predicate SysInv(h: Hash, s: System) {
    Inv(h, s.ledger) && RowLocksOk(s) && JobsOk(h, s) && PendingOk(s) && LegsOk(s)
  }

  // ---- A ledger step leaves other transactions alone ----

  ghost predicate Untouched(h: Hash, a: State, b: State, tx: Tx) {
    && (tx in a.active <==> tx in b.active)
    && Select(b.rows, Own(tx)) == Select(a.rows, Own(tx))
    && (forall k :: k in a.locks && a.locks[k] == tx <==> k in b.locks && b.locks[k] == tx)
    && (forall t :: Holds(h, a, tx, t) ==> Total(b.rows, OnTank(t)) == Total(a.rows, OnTank(t)))
  }

  lemma {:induction false} CommitKeepsOwn(rows: seq<Row>, tx: Tx, p: Row -> bool)
    requires forall r :: r in rows && r.owner == tx ==> p(r) == p(r.(committed := true))
    requires forall r :: r in rows && r.owner == tx && p(r) ==> r.committed
    ensures Select(CommitRows(rows, tx), p) == Select(rows, p)
  {
    if rows != [] {
      var before, last := rows[..|rows| - 1], rows[|rows| - 1];
      assert last in rows;
      CommitKeepsOwn(before, tx, p);
      assert CommitRows(rows, tx)[..|rows| - 1] == CommitRows(before, tx);
    }
  }

  /** Rows and sums of a transaction's own, over an appended row of somebody else. */
  lemma AppendElsewhere(h: Hash, s: State, s': State, r: Row, tx: Tx)
    requires s' == s.(rows := s.rows + [r], nextSeq := s'.nextSeq) && r.owner != tx && !Holds(h, s, tx, r.tank)
    ensures Untouched(h, s, s', tx)
  {
    SelectSnoc(s.rows, r, Own(tx));
    forall u | Holds(h, s, tx, u) ensures Total(s'.rows, OnTank(u)) == Total(s.rows, OnTank(u)) {
      TotalSnoc(s.rows, r, OnTank(u));
    }
  }

  lemma CommitElsewhere(h: Hash, s: State, w: Tx, tx: Tx)
    requires w in s.active && w != tx
    ensures Untouched(h, s, Exec(h, s, StockLedger.Commit(w)), tx)
  {
    CommitKeepsOwn(s.rows, w, Own(tx));
    forall u | Holds(h, s, tx, u) ensures Total(CommitRows(s.rows, w), OnTank(u)) == Total(s.rows, OnTank(u)) {
      TotalCommit(s.rows, w, u);
    }
  }

  lemma RollbackElsewhere(h: Hash, s: State, w: Tx, tx: Tx)
    requires Inv(h, s) && w in s.active && w != tx
    ensures Untouched(h, s, Exec(h, s, Rollback(w)), tx)
  {
    RollbackKeepsRows(s.rows, w, Own(tx));
    forall u | Holds(h, s, tx, u) ensures Total(Select(s.rows, Kept(w)), OnTank(u)) == Total(s.rows, OnTank(u)) {
      TotalSelect(s.rows, OnTank(u), Kept(w));
    }
  }

  lemma OthersUntouched(h: Hash, s: State, step: Step, tx: Tx)
    requires Inv(h, s) && step.tx != tx
    ensures Untouched(h, s, Exec(h, s, step), tx)
  {
    match step
    case Begin(_) =>
    case Lock(_, _) =>
    case Insert(w, t, kind, amount, order) =>
      if w in s.active && Holds(h, s, w, t) {
        AppendElsewhere(h, s, Exec(h, s, step), NewRow(s, w, t, kind, amount, order), tx);
      }
    case Commit(w) => if w in s.active { CommitElsewhere(h, s, w, tx); }
    case Release(_) =>
    case Rollback(w) => if w in s.active { RollbackElsewhere(h, s, w, tx); }
  }

  /** Legs on record change only when a transaction that posted for the order commits. */
  lemma LegsUntouched(h: Hash, s: State, step: Step, id: nat)
    requires step.Commit? ==> forall r :: r in s.rows && r.owner == step.tx && !r.committed ==> r.order != Some(id)
    ensures Select(Exec(h, s, step).rows, LegOf(id)) == Select(s.rows, LegOf(id))
  {
    match step
    case Begin(_) =>
    case Lock(_, _) =>
    case Insert(w, t, kind, amount, order) =>
      SelectSnoc(s.rows, NewRow(s, w, t, kind, amount, order), LegOf(id));
    case Commit(w) => CommitKeepsOwn(s.rows, w, LegOf(id));
    case Release(_) =>
    case Rollback(w) => RollbackKeepsRows(s.rows, w, LegOf(id));
  }

  lemma JobFrame(h: Hash, a: System, b: System, tx: Tx)
    requires tx in a.jobs && tx in b.jobs && a.jobs[tx] == b.jobs[tx] && JobOk(h, a, tx)
    requires Untouched(h, a.ledger, b.ledger, tx)
    requires !a.jobs[tx].pc.WantsOrder? ==>
      var id := a.jobs[tx].order;
      && id in b.orders && b.orders[id] == a.orders[id]
      && id in b.rowLocks && b.rowLocks[id] == tx
    ensures JobOk(h, b, tx)
  {
  }

  // ---- Every move keeps the invariant ----

  lemma SelectNone(rows: seq<Row>, p: Row -> bool)
    requires forall r :: r in rows ==> !p(r)
    ensures Select(rows, p) == []
  {
    if Select(rows, p) != [] {
      assert Select(rows, p)[0] in Select(rows, p);
    }
  }

  /** How one ledger step may change the system around it: only the stepping transaction's job
      and row lock move, and a leg is posted only by the job of its order. */
  ghost predicate OneMover(h: Hash, s: System, step: Step, b: System) {
    && b.ledger == Exec(h, s.ledger, step)
    && (forall tx :: tx != step.tx ==> (tx in b.jobs <==> tx in s.jobs))
    && (forall tx :: tx in b.jobs && tx != step.tx ==> s.jobs[tx] == b.jobs[tx])
    && (forall id :: id in s.rowLocks && s.rowLocks[id] != step.tx ==>
      id in b.rowLocks && b.rowLocks[id] == s.rowLocks[id])
    && (step.Insert? && step.order.Some? ==> step.tx in b.jobs && b.jobs[step.tx].order == step.order.value)
    && (step.tx in s.jobs ==>
         (step.tx in b.jobs && s.jobs[step.tx].order == b.jobs[step.tx].order) || step.Rollback? || step.Commit?)
  }

  lemma OtherJobsKeep(h: Hash, s: System, step: Step, b: System)
    requires Inv(h, s.ledger) && JobsOk(h, s) && OneMover(h, s, step, b)
    requires forall tx :: tx in s.jobs && tx != step.tx && !s.jobs[tx].pc.WantsOrder? ==>
      var id := s.jobs[tx].order; id in s.orders && id in b.orders && b.orders[id] == s.orders[id]
    requires step.tx in b.jobs ==> JobOk(h, b, step.tx)
    ensures JobsOk(h, b)
  {
    forall tx | tx in b.jobs && tx != step.tx ensures JobOk(h, b, tx) {
      assert JobOk(h, s, tx);
      OthersUntouched(h, s.ledger, step, tx);
      JobFrame(h, s, b, tx);
    }
  }

  lemma PendingKeeps(h: Hash, s: System, step: Step, b: System)
    requires PendingOk(s) && OneMover(h, s, step, b)
    requires step.Commit? ==> step.tx in s.ledger.active
    requires step.Rollback? ==> step.tx in s.ledger.active
    ensures PendingOk(b)
  {
    forall r | r in b.ledger.rows && !r.committed && r.order.Some?
      ensures r.owner in b.jobs && b.jobs[r.owner].order == r.order.value
    {
      if step.Commit? {
        var i :| 0 <= i < |b.ledger.rows| && b.ledger.rows[i] == r;
        assert s.ledger.rows[i] in s.ledger.rows;
      }
    }
  }

  lemma LegsKeep(h: Hash, s: System, step: Step, b: System)
    requires LegsOk(s) && b.ledger == Exec(h, s.ledger, step) && b.orders == s.orders
    requires step.Commit? ==> forall r :: r in s.ledger.rows && r.owner == step.tx && !r.committed ==> r.order.None?
    ensures LegsOk(b)
  {
    forall id: nat ensures LegsOkFor(b, id) {
      assert LegsOkFor(s, id);
      LegsUntouched(h, s.ledger, step, id);
    }
  }

  lemma LedgerStepKeeps(h: Hash, s: System, step: Step, b: System)
    requires SysInv(h, s) && OneMover(h, s, step, b)
    requires Inv(h, b.ledger) && RowLocksOk(b) && b.orders == s.orders
    requires step.Commit? || step.Rollback? ==> step.tx in s.ledger.active
    requires step.Commit? ==> step.tx !in s.jobs
    requires step.tx in b.jobs ==> JobOk(h, b, step.tx)
    ensures SysInv(h, b)
  {
    OtherJobsKeep(h, s, step, b) by { assert forall tx :: tx in s.jobs ==> JobOk(h, s, tx); }
    PendingKeeps(h, s, step, b);
    LegsKeep(h, s, step, b);
  }

  lemma OutsideKeeps(h: Hash, s: System, step: Step)
    requires SysInv(h, s) && step.tx !in s.jobs
    requires step.Insert? ==> step.order.None?
    ensures SysInv(h, s.(ledger := Exec(h, s.ledger, step)))
  {
    StepKeepsInv(h, s.ledger, step);
    if Exec(h, s.ledger, step) != s.ledger {
      LedgerStepKeeps(h, s, step, s.(ledger := Exec(h, s.ledger, step)));
    }
  }

  lemma AbortKeeps(h: Hash, s: System, tx: Tx)
    requires SysInv(h, s) && tx in s.jobs
    ensures SysInv(h, Aborted(h, s, tx))
  {
    assert JobOk(h, s, tx);
    StepKeepsInv(h, s.ledger, Rollback(tx));
    LedgerStepKeeps(h, s, Rollback(tx), Aborted(h, s, tx));
  }

  lemma StartKeeps(h: Hash, s: System, tx: Tx, id: nat)
    requires SysInv(h, s) && tx !in s.jobs && tx !in s.ledger.active + s.ledger.ending
    ensures SysInv(h, s.(ledger := Exec(h, s.ledger, Begin(tx)), jobs := s.jobs[tx := Job(id, WantsOrder)]))
  {
    StepKeepsInv(h, s.ledger, Begin(tx));
    SelectNone(s.ledger.rows, Own(tx));
    LedgerStepKeeps(h, s, Begin(tx),
      s.(ledger := Exec(h, s.ledger, Begin(tx)), jobs := s.jobs[tx := Job(id, WantsOrder)]));
  }

  lemma TakeKeyJob(h: Hash, s: System, tx: Tx, t: Tank, next: Pc)
    requires tx in s.jobs && s.jobs[tx].order in s.orders && JobOk(h, s, tx)
    requires var o := s.orders[s.jobs[tx].order];
      || (s.jobs[tx].pc.WantsLowKey? && t == LowTank(h, o) && next.WantsHighKey?)
      || (s.jobs[tx].pc.WantsHighKey? && t == HighTank(h, o) && next.ChecksStock?)
    requires TakeKey(h, s, tx, t, next) != s
    ensures JobOk(h, TakeKey(h, s, tx, t, next), tx)
  {
  }

  lemma TakeKeyMoves(h: Hash, s: System, tx: Tx, t: Tank, next: Pc)
    requires tx in s.jobs && !next.WantsOrder? && RowLocksOk(s)
    requires TakeKey(h, s, tx, t, next) != s
    ensures var b := TakeKey(h, s, tx, t, next);
      RowLocksOk(b) && OneMover(h, s, Lock(tx, t), b) && b.orders == s.orders
  {
  }

  lemma TakeKeyKeeps(h: Hash, s: System, tx: Tx, t: Tank, next: Pc)
    requires SysInv(h, s) && tx in s.jobs && s.jobs[tx].order in s.orders
    requires var o := s.orders[s.jobs[tx].order];
      || (s.jobs[tx].pc.WantsLowKey? && t == LowTank(h, o) && next.WantsHighKey?)
      || (s.jobs[tx].pc.WantsHighKey? && t == HighTank(h, o) && next.ChecksStock?)
    ensures SysInv(h, TakeKey(h, s, tx, t, next))
  {
    StepKeepsInv(h, s.ledger, Lock(tx, t));
    var b := TakeKey(h, s, tx, t, next);
    if b != s {
      TakeKeyJob(h, s, tx, t, next);
      TakeKeyMoves(h, s, tx, t, next);
      LedgerStepKeeps(h, s, Lock(tx, t), b);
    }
  }

  lemma CheckJob(h: Hash, s: System, tx: Tx)
    requires Inv(h, s.ledger) && tx in s.jobs && s.jobs[tx].pc.ChecksStock? && JobOk(h, s, tx)
    requires Total(s.ledger.rows,
        VisibleOnTank(s.orders[s.jobs[tx].order].source, Some(tx))) >= s.orders[s.jobs[tx].order].litres
    ensures JobOk(h, s.(jobs := s.jobs[tx := Job(s.jobs[tx].order, PostsOut)]), tx)
  {
    var o := s.orders[s.jobs[tx].order];
    TotalSame(s.ledger.rows, VisibleOnTank(o.source, Some(tx)), OnTank(o.source));
  }

  lemma CheckKeeps(h: Hash, s: System, tx: Tx)
    requires SysInv(h, s) && tx in s.jobs && s.jobs[tx].pc.ChecksStock? && s.jobs[tx].order in s.orders
    requires Total(s.ledger.rows,
        VisibleOnTank(s.orders[s.jobs[tx].order].source, Some(tx))) >= s.orders[s.jobs[tx].order].litres
    ensures SysInv(h, s.(jobs := s.jobs[tx := Job(s.jobs[tx].order, PostsOut)]))
  {
    CheckJob(h, s, tx);
    assert s.ledger.active + {tx} == s.ledger.active;
    LedgerStepKeeps(h, s, Begin(tx), s.(jobs := s.jobs[tx := Job(s.jobs[tx].order, PostsOut)]));
  }

  lemma LockOrderJob(h: Hash, products: Products, s: System, tx: Tx)
    requires tx in s.jobs && s.jobs[tx].pc.WantsOrder? && JobOk(h, s, tx)
    requires var b := LockOrder(h, products, s, tx); b != s && b != Aborted(h, s, tx)
    ensures var b := LockOrder(h, products, s, tx); tx in b.jobs && JobOk(h, b, tx)
  {
  }

  lemma LockOrderMoves(h: Hash, products: Products, s: System, tx: Tx)
    requires tx in s.jobs && tx in s.ledger.active && tx !in s.ledger.ending && s.jobs[tx].pc.WantsOrder?
        && RowLocksOk(s)
    requires var b := LockOrder(h, products, s, tx); b != s && b != Aborted(h, s, tx)
    ensures var b := LockOrder(h, products, s, tx);
      RowLocksOk(b) && OneMover(h, s, Begin(tx), b) && b.ledger == s.ledger && b.orders == s.orders
  {
    assert s.ledger.active + {tx} == s.ledger.active;
  }

  lemma LockOrderKeeps(h: Hash, products: Products, s: System, tx: Tx)
    requires SysInv(h, s) && tx in s.jobs && s.jobs[tx].pc.WantsOrder?
    ensures SysInv(h, LockOrder(h, products, s, tx))
  {
    AbortKeeps(h, s, tx);
    JobHasOrder(h, s, tx);
    var b := LockOrder(h, products, s, tx);
    if b != s && b != Aborted(h, s, tx) {
      LockOrderJob(h, products, s, tx);
      LockOrderMoves(h, products, s, tx);
      LedgerStepKeeps(h, s, Begin(tx), b);
    }
  }

  // Posting a leg

  lemma LegRow(s: State, tx: Tx, t: Tank, litres: int, id: nat)
    ensures var r := NewRow(s, tx, t, Transfer, litres as real, Some(id));
      && r.litres == litres
      && Select(s.rows + [r], Own(tx)) == Select(s.rows, Own(tx)) + [r]
      && forall u :: Total(s.rows + [r], OnTank(u)) == Total(s.rows, OnTank(u)) + (if u == t then litres else 0)
  {
    var r := NewRow(s, tx, t, Transfer, litres as real, Some(id));
    RoundOfStored(litres);
    SelectSnoc(s.rows, r, Own(tx));
    forall u ensures Total(s.rows + [r], OnTank(u)) == Total(s.rows, OnTank(u)) + (if u == t then litres else 0) {
      TotalSnoc(s.rows, r, OnTank(u));
    }
  }

  lemma PostOutJob(h: Hash, s: System, tx: Tx)
    requires tx in s.jobs && s.jobs[tx].order in s.orders && s.jobs[tx].pc.PostsOut? && JobsOk(h, s)
    ensures var o := s.orders[s.jobs[tx].order];
      Holds(h, s.ledger, tx, o.source) && JobOk(h, PostLeg(h, s, tx, o.source, Outgoing(o), PostsIn), tx)
  {
    var o := s.orders[s.jobs[tx].order];
    assert JobOk(h, s, tx);
    LegRow(s.ledger, tx, o.source, Outgoing(o), s.jobs[tx].order);
  }

  lemma PostInJob(h: Hash, s: System, tx: Tx)
    requires tx in s.jobs && s.jobs[tx].order in s.orders && s.jobs[tx].pc.PostsIn? && JobsOk(h, s)
    requires ValidOrder(s.orders[s.jobs[tx].order])
    ensures var o := s.orders[s.jobs[tx].order];
      Holds(h, s.ledger, tx, o.target) && JobOk(h, PostLeg(h, s, tx, o.target, o.litres, Commits), tx)
  {
    var o := s.orders[s.jobs[tx].order];
    assert JobOk(h, s, tx);
    LegRow(s.ledger, tx, o.target, o.litres, s.jobs[tx].order);
  }

  lemma PostLegMoves(h: Hash, s: System, tx: Tx, t: Tank, litres: int, next: Pc)
    requires tx in s.jobs && !next.WantsOrder? && RowLocksOk(s)
    ensures var b := PostLeg(h, s, tx, t, litres, next);
      RowLocksOk(b) && OneMover(h, s, Insert(tx, t, Transfer, litres as real, Some(s.jobs[tx].order)), b)
  {
  }

  lemma PostLegRest(h: Hash, s: System, tx: Tx, t: Tank, litres: int, next: Pc)
    requires Inv(h, s.ledger) && RowLocksOk(s) && PendingOk(s) && LegsOk(s)
    requires tx in s.jobs && !next.WantsOrder?
    ensures var b := PostLeg(h, s, tx, t, litres, next);
      Inv(h, b.ledger) && RowLocksOk(b) && PendingOk(b) && LegsOk(b)
  {
    var step := Insert(tx, t, Transfer, litres as real, Some(s.jobs[tx].order));
    PostLegMoves(h, s, tx, t, litres, next);
    StepKeepsInv(h, s.ledger, step);
    PendingKeeps(h, s, step, PostLeg(h, s, tx, t, litres, next));
    LegsKeep(h, s, step, PostLeg(h, s, tx, t, litres, next));
  }

  lemma PostLegJobs(h: Hash, s: System, tx: Tx, t: Tank, litres: int, next: Pc)
    requires Inv(h, s.ledger) && JobsOk(h, s) && RowLocksOk(s)
    requires tx in s.jobs && !next.WantsOrder?
    requires JobOk(h, PostLeg(h, s, tx, t, litres, next), tx)
    ensures JobsOk(h, PostLeg(h, s, tx, t, litres, next))
  {
    PostLegMoves(h, s, tx, t, litres, next);
    forall w | w in s.jobs && !s.jobs[w].pc.WantsOrder? ensures s.jobs[w].order in s.orders {
      OrderKnown(h, s, w);
    }
    OtherJobsKeep(h, s, Insert(tx, t, Transfer, litres as real, Some(s.jobs[tx].order)),
      PostLeg(h, s, tx, t, litres, next));
  }

  lemma PostOutJobs(h: Hash, s: System, tx: Tx)
    requires Inv(h, s.ledger) && JobsOk(h, s) && RowLocksOk(s)
    requires tx in s.jobs && s.jobs[tx].order in s.orders && s.jobs[tx].pc.PostsOut?
    ensures var o := s.orders[s.jobs[tx].order]; JobsOk(h, PostLeg(h, s, tx, o.source, Outgoing(o), PostsIn))
  {
    var o := s.orders[s.jobs[tx].order];
    PostOutJob(h, s, tx);
    PostLegJobs(h, s, tx, o.source, Outgoing(o), PostsIn);
  }

  lemma PostInJobs(h: Hash, s: System, tx: Tx)
    requires Inv(h, s.ledger) && JobsOk(h, s) && RowLocksOk(s)
    requires tx in s.jobs && s.jobs[tx].order in s.orders && s.jobs[tx].pc.PostsIn?
        && ValidOrder(s.orders[s.jobs[tx].order])
    ensures var o := s.orders[s.jobs[tx].order]; JobsOk(h, PostLeg(h, s, tx, o.target, o.litres, Commits))
  {
    var o := s.orders[s.jobs[tx].order];
    PostInJob(h, s, tx);
    PostLegJobs(h, s, tx, o.target, o.litres, Commits);
  }

  lemma PostOutKeeps(h: Hash, s: System, tx: Tx)
    requires SysInv(h, s) && tx in s.jobs && s.jobs[tx].order in s.orders && s.jobs[tx].pc.PostsOut?
    ensures var o := s.orders[s.jobs[tx].order]; SysInv(h, PostLeg(h, s, tx, o.source, Outgoing(o), PostsIn))
  {
    var o := s.orders[s.jobs[tx].order];
    PostOutJobs(h, s, tx);
    PostLegRest(h, s, tx, o.source, Outgoing(o), PostsIn);
  }

  lemma PostInKeeps(h: Hash, products: Products, s: System, tx: Tx)
    requires SysInv(h, s) && tx in s.jobs && s.jobs[tx].order in s.orders && s.jobs[tx].pc.PostsIn?
    ensures SysInv(h, Statement(h, products, s, tx))
  {
    var o := s.orders[s.jobs[tx].order];
    PostInJobs(h, s, tx);
    PostLegRest(h, s, tx, o.target, o.litres, Commits);
  }

  // Committing

  lemma PublishLast(before: seq<Row>, last: Row, tx: Tx, id: nat)
    requires !LegOf(id)(last) && (Own(tx)(last) ==> last.order == Some(id))
    ensures var rows, published := before + [last], last.(committed := true);
      && Select(rows, Own(tx)) == Select(before, Own(tx)) + (if Own(tx)(last) then [last] else [])
      && Select(CommitRows(rows, tx), LegOf(id))
         == Select(CommitRows(before, tx), LegOf(id)) + (if Own(tx)(last) then [published] else [])
  {
    var rows := before + [last];
    var written := CommitRows(rows, tx)[|before|];
    SelectSnoc(before, last, Own(tx));
    assert CommitRows(rows, tx) == CommitRows(before, tx) + [written];
    SelectSnoc(CommitRows(before, tx), written, LegOf(id));
  }

  /** Row by row, the second is the first, committed. */
  ghost predicate Publishes(own: seq<Row>, legs: seq<Row>) {
    |legs| == |own| && forall i :: 0 <= i < |own| ==> legs[i] == own[i].(committed := true)
  }

  lemma PublishesMore(own: seq<Row>, legs: seq<Row>, r: Row)
    requires Publishes(own, legs)
    ensures Publishes(own + [r], legs + [r.(committed := true)])
  {
  }

  lemma NoLegBefore(before: seq<Row>, last: Row, id: nat)
    requires Select(before + [last], LegOf(id)) == []
    ensures Select(before, LegOf(id)) == [] && !LegOf(id)(last)
  {
    SelectSnoc(before, last, LegOf(id));
  }

  lemma {:induction false} CommitPublishes(rows: seq<Row>, tx: Tx, id: nat)
    requires Select(rows, LegOf(id)) == []
    requires forall r :: r in rows && Own(tx)(r) ==> r.order == Some(id)
    ensures Publishes(Select(rows, Own(tx)), Select(CommitRows(rows, tx), LegOf(id)))
  {
    if rows != [] {
      var before, last := rows[..|rows| - 1], rows[|rows| - 1];
      assert rows == before + [last];
      NoLegBefore(before, last, id);
      CommitPublishes(before, tx, id);
      PublishLast(before, last, tx, id);
      if Own(tx)(last) {
        PublishesMore(Select(before, Own(tx)), Select(CommitRows(before, tx), LegOf(id)), last);
      }
    }
  }

  lemma OwnRowsAreLegs(s: System, tx: Tx)
    requires tx in s.jobs && s.jobs[tx].pc.Commits? && s.jobs[tx].order in s.orders && RowsPosted(s, tx)
    ensures forall r :: r in s.ledger.rows && Own(tx)(r) ==> r.order == Some(s.jobs[tx].order)
  {
    var own := Select(s.ledger.rows, Own(tx));
    forall r | r in s.ledger.rows && Own(tx)(r) ensures r.order == Some(s.jobs[tx].order) {
      assert r in own;
    }
  }

  lemma CommittedLegs(s: System, tx: Tx)
    requires tx in s.jobs && s.jobs[tx].pc.Commits? && s.jobs[tx].order in s.orders && RowsPosted(s, tx)
    requires Select(s.ledger.rows, LegOf(s.jobs[tx].order)) == []
    ensures var id := s.jobs[tx].order;
      BothLegs(Select(CommitRows(s.ledger.rows, tx), LegOf(id)), id, s.orders[id])
  {
    OwnRowsAreLegs(s, tx);
    CommitPublishes(s.ledger.rows, tx, s.jobs[tx].order);
  }

  lemma OtherLegs(s: System, tx: Tx, other: nat)
    requires tx in s.jobs && s.jobs[tx].pc.Commits? && s.jobs[tx].order in s.orders && RowsPosted(s, tx)
    requires other != s.jobs[tx].order
    ensures Select(CommitRows(s.ledger.rows, tx), LegOf(other)) == Select(s.ledger.rows, LegOf(other))
  {
    OwnRowsAreLegs(s, tx);
    CommitKeepsOwn(s.ledger.rows, tx, LegOf(other));
  }

  lemma CommitLegs(s: System, tx: Tx, b: System)
    requires LegsOk(s) && tx in s.jobs && s.jobs[tx].pc.Commits? && s.jobs[tx].order in s.orders
    requires !s.orders[s.jobs[tx].order].status.Received? && RowsPosted(s, tx)
    requires b.ledger.rows == CommitRows(s.ledger.rows, tx)
    requires b.orders == s.orders[s.jobs[tx].order := s.orders[s.jobs[tx].order].(status := Received)]
    ensures LegsOk(b)
  {
    forall id: nat ensures LegsOkFor(b, id) {
      assert LegsOkFor(s, id);
      if id == s.jobs[tx].order {
        CommittedLegs(s, tx);
      } else {
        OtherLegs(s, tx, id);
      }
    }
  }

  lemma CommitMoves(h: Hash, s: System, tx: Tx)
    requires tx in s.jobs && s.jobs[tx].pc.Commits? && s.jobs[tx].order in s.orders && RowLocksOk(s)
    ensures RowLocksOk(Finished(h, s, tx)) && OneMover(h, s, StockLedger.Commit(tx), Finished(h, s, tx))
  {
  }

  /** No two jobs work on one order, so committing this one leaves the others' orders alone. */
  lemma OtherOrders(h: Hash, s: System, tx: Tx, orders: map<nat, Order>)
    requires JobsOk(h, s) && tx in s.jobs && !s.jobs[tx].pc.WantsOrder?
    requires forall id :: id in s.orders && id != s.jobs[tx].order ==> id in orders && orders[id] == s.orders[id]
    ensures forall w :: w in s.jobs && w != tx && !s.jobs[w].pc.WantsOrder? ==>
      var id := s.jobs[w].order; id in s.orders && id in orders && orders[id] == s.orders[id]
  {
    assert JobOk(h, s, tx);
    forall w | w in s.jobs && w != tx && !s.jobs[w].pc.WantsOrder?
      ensures var id := s.jobs[w].order; id in s.orders && id in orders && orders[id] == s.orders[id]
    {
      assert JobOk(h, s, w);
    }
  }

  lemma FinishJobs(h: Hash, s: System, tx: Tx)
    requires Inv(h, s.ledger) && JobsOk(h, s) && RowLocksOk(s)
    requires tx in s.jobs && s.jobs[tx].order in s.orders && s.jobs[tx].pc.Commits?
    ensures JobsOk(h, Finished(h, s, tx))
  {
    CommitMoves(h, s, tx);
    OtherOrders(h, s, tx, Finished(h, s, tx).orders);
    OtherJobsKeep(h, s, StockLedger.Commit(tx), Finished(h, s, tx));
  }

  lemma FinishRest(h: Hash, s: System, tx: Tx)
    requires LegsOk(s) && PendingOk(s) && RowLocksOk(s)
    requires tx in s.jobs && s.jobs[tx].order in s.orders && s.jobs[tx].pc.Commits? && tx in s.ledger.active
    requires !s.orders[s.jobs[tx].order].status.Received? && RowsPosted(s, tx)
    ensures LegsOk(Finished(h, s, tx)) && PendingOk(Finished(h, s, tx)) && RowLocksOk(Finished(h, s, tx))
  {
    CommitMoves(h, s, tx);
    CommitLegs(s, tx, Finished(h, s, tx));
    PendingKeeps(h, s, StockLedger.Commit(tx), Finished(h, s, tx));
  }

  lemma FinishKeeps(h: Hash, s: System, tx: Tx)
    requires SysInv(h, s) && tx in s.jobs && s.jobs[tx].order in s.orders && s.jobs[tx].pc.Commits?
    ensures SysInv(h, Finished(h, s, tx))
  {
    JobHasOrder(h, s, tx);
    CommitKeepsInv(h, s.ledger, tx);
    FinishJobs(h, s, tx);
    FinishRest(h, s, tx);
  }

  lemma MoveKeeps(h: Hash, products: Products, s: System, m: Move)
    requires SysInv(h, s)
    ensures SysInv(h, Apply(h, products, s, m))
  {
    match m
    case Create(id, o) => OrdersKeep(h, s, Apply(h, products, s, m));
    case Approve(id) => OrdersKeep(h, s, Apply(h, products, s, m));
    case Start(tx, id) =>
      if tx !in s.ledger.active + s.ledger.ending && tx !in s.jobs {
        StartKeeps(h, s, tx, id);
      }
    case Advance(tx) => if tx in s.jobs { StatementKeeps(h, products, s, tx); }
    case Abort(tx) => if tx in s.jobs { AbortKeeps(h, s, tx); }
    case Outside(step) => if step.tx !in s.jobs && !step.Insert? { OutsideKeeps(h, s, step); }
    case OutsidePost(tx, t, kind, amount) =>
      if tx !in s.jobs { OutsideKeeps(h, s, Insert(tx, t, kind, amount, None)); }
  }

  lemma JobHasOrder(h: Hash, s: System, tx: Tx)
    requires SysInv(h, s) && tx in s.jobs
    ensures tx in s.ledger.active
    ensures !s.jobs[tx].pc.WantsOrder? ==> s.jobs[tx].order in s.orders
    ensures s.jobs[tx].pc.Commits? ==> !s.orders[s.jobs[tx].order].status.Received? && RowsPosted(s, tx)
  {
    assert JobOk(h, s, tx);
  }

  lemma OrderKnown(h: Hash, s: System, tx: Tx)
    requires JobsOk(h, s) && tx in s.jobs && !s.jobs[tx].pc.WantsOrder?
    ensures s.jobs[tx].order in s.orders
  {
    assert JobOk(h, s, tx);
  }

  lemma LockingKeeps(h: Hash, products: Products, s: System, tx: Tx)
    requires SysInv(h, s) && tx in s.jobs
    requires s.jobs[tx].pc.WantsOrder? || s.jobs[tx].pc.WantsLowKey? || s.jobs[tx].pc.WantsHighKey?
    ensures SysInv(h, Statement(h, products, s, tx))
  {
    if !s.jobs[tx].pc.WantsOrder? {
      OrderKnown(h, s, tx);
    }
    match s.jobs[tx].pc
    case WantsOrder => LockOrderKeeps(h, products, s, tx);
    case WantsLowKey => TakeKeyKeeps(h, s, tx, LowTank(h, s.orders[s.jobs[tx].order]), WantsHighKey);
    case WantsHighKey => TakeKeyKeeps(h, s, tx, HighTank(h, s.orders[s.jobs[tx].order]), ChecksStock);
  }

  lemma CheckStockKeeps(h: Hash, products: Products, s: System, tx: Tx)
    requires SysInv(h, s) && tx in s.jobs && s.jobs[tx].pc.ChecksStock? && s.jobs[tx].order in s.orders
    ensures SysInv(h, Statement(h, products, s, tx))
  {
    var o := s.orders[s.jobs[tx].order];
    if Total(s.ledger.rows, VisibleOnTank(o.source, Some(tx))) >= o.litres {
      CheckKeeps(h, s, tx);
    } else {
      AbortKeeps(h, s, tx);
    }
  }

  lemma StatementKeeps(h: Hash, products: Products, s: System, tx: Tx)
    requires SysInv(h, s) && tx in s.jobs
    ensures SysInv(h, Statement(h, products, s, tx))
  {
    if s.jobs[tx].pc.WantsOrder? || s.jobs[tx].pc.WantsLowKey? || s.jobs[tx].pc.WantsHighKey? {
      LockingKeeps(h, products, s, tx);
    } else {
      OrderKnown(h, s, tx);
      match s.jobs[tx].pc
      case ChecksStock => CheckStockKeeps(h, products, s, tx);
      case PostsOut => PostOutKeeps(h, s, tx);
      case PostsIn => PostInKeeps(h, products, s, tx);
      case Commits => FinishKeeps(h, s, tx);
    }
  }

  lemma OrdersKeep(h: Hash, s: System, b: System)
    requires SysInv(h, s) && b == s.(orders := b.orders)
    requires forall id :: id in s.orders ==>
      id in b.orders && (b.orders[id] == s.orders[id] || (id !in s.rowLocks && s.orders[id].status.Draft?
        && b.orders[id] == s.orders[id].(status := Approved)))
    requires forall id :: id in b.orders && id !in s.orders ==> ValidOrder(b.orders[id]) && b.orders[id].status.Draft?
    ensures SysInv(h, b)
  {
    forall tx | tx in b.jobs ensures JobOk(h, b, tx) {
      assert JobOk(h, s, tx);
      JobFrame(h, s, b, tx);
    }
    forall id: nat ensures LegsOkFor(b, id) {
      assert LegsOkFor(s, id);
    }
  }

  lemma {:induction false} MovesKeep(h: Hash, products: Products, s: System, moves: seq<Move>)
    requires SysInv(h, s)
    ensures SysInv(h, RunMoves(h, products, s, moves))
    decreases |moves|
  {
    if moves != [] {
      MoveKeeps(h, products, s, moves[0]);
      MovesKeep(h, products, Apply(h, products, s, moves[0]), moves[1..]);
    }
  }

  // ---- Deadlock freedom ----

  /** The advisory key a job asks for next. */
  function WantedKey(h: Hash, s: System, tx: Tx): int
    requires tx in s.jobs
  {
    var job := s.jobs[tx];
    if job.order !in s.orders then 0
    else if job.pc.WantsLowKey? then h(LowTank(h, s.orders[job.order]).id)
    else h(HighTank(h, s.orders[job.order]).id)
  }

  /** Job `a` is blocked by job `b`: `b` holds the order row, or the advisory key, that `a` asks for. */
  predicate WaitsFor(h: Hash, s: System, a: Tx, b: Tx) {
    && a in s.jobs && b in s.jobs && a != b
    && var job := s.jobs[a];
       if job.pc.WantsOrder? then job.order in s.rowLocks && s.rowLocks[job.order] == b
       else
         && (job.pc.WantsLowKey? || job.pc.WantsHighKey?) && job.order in s.orders
         && WantedKey(h, s, a) in s.ledger.locks && s.ledger.locks[WantedKey(h, s, a)] == b
  }

  /** Along a chain of waits, whoever is waited for is past its order row, and the keys asked for rise. */
  lemma WantedKeysRise(h: Hash, s: System, a: Tx, b: Tx, c: Tx)
    requires SysInv(h, s) && WaitsFor(h, s, a, b) && WaitsFor(h, s, b, c)
    ensures !s.jobs[b].pc.WantsOrder?
    ensures !s.jobs[a].pc.WantsOrder? ==> WantedKey(h, s, a) < WantedKey(h, s, b)
  {
    assert JobOk(h, s, b);
  }

  predicate Cycle(h: Hash, s: System, c: seq<Tx>) {
    && |c| > 0
    && (forall i :: 0 < i < |c| ==> WaitsFor(h, s, c[i - 1], c[i]))
    && WaitsFor(h, s, c[|c| - 1], c[0])
  }

  lemma {:induction false} CycleRises(h: Hash, s: System, c: seq<Tx>, i: nat)
    requires SysInv(h, s) && Cycle(h, s, c) && i < |c|
    ensures c[0] in s.jobs && c[i] in s.jobs
    ensures !s.jobs[c[0]].pc.WantsOrder? && !s.jobs[c[i]].pc.WantsOrder?
    ensures i > 0 ==> WantedKey(h, s, c[0]) < WantedKey(h, s, c[i])
  {
    var next := if |c| == 1 then c[0] else c[1];
    WantedKeysRise(h, s, c[|c| - 1], c[0], next);
    if i > 0 {
      CycleRises(h, s, c, i - 1);
      WantedKeysRise(h, s, c[i - 1], c[i], if i + 1 < |c| then c[i + 1] else c[0]);
    }
  }

  /** No set of concurrent receives can block one another, whatever else runs. */
  lemma NoDeadlock(h: Hash, products: Products, moves: seq<Move>, c: seq<Tx>)
    ensures !Cycle(h, RunMoves(h, products, Empty, moves), c)
  {
    var s := RunMoves(h, products, Empty, moves);
    MovesKeep(h, products, Empty, moves);
    if Cycle(h, s, c) {
      CycleRises(h, s, c, |c| - 1);
      WantedKeysRise(h, s, c[|c| - 1], c[0], if |c| == 1 then c[0] else c[1]);
    }
  }

  // ---- What a completed receive does to the books ----

  lemma {:induction false} CommitAddsOwn(rows: seq<Row>, tx: Tx, t: Tank)
    ensures Total(CommitRows(rows, tx), VisibleOnTank(t, None))
         == Total(rows, VisibleOnTank(t, None)) + Total(Select(rows, Own(tx)), OnTank(t))
  {
    if rows != [] {
      var before, last := rows[..|rows| - 1], rows[|rows| - 1];
      CommitAddsOwn(before, tx, t);
      assert CommitRows(rows, tx)[..|rows| - 1] == CommitRows(before, tx);
      if Own(tx)(last) {
        TotalSnoc(Select(before, Own(tx)), last, OnTank(t));
      }
    }
  }

  lemma LegsTotal(rows: seq<Row>, id: nat, o: Order, t: Tank)
    requires BothLegs(rows, id, o) && ValidOrder(o)
    ensures Total(rows, OnTank(t)) == if t == o.source then -o.litres else if t == o.target then o.litres else 0
  {
    TotalSnoc([], rows[0], OnTank(t));
    TotalSnoc([rows[0]], rows[1], OnTank(t));
    assert rows == [rows[0]] + [rows[1]] && [rows[0]] == [] + [rows[0]];
  }

  /** Once its key holder commits, nothing on a tank is uncommitted. */
  lemma BooksAfterCommit(h: Hash, s: State, tx: Tx, t: Tank)
    requires Inv(h, s) && Holds(h, s, tx, t)
    ensures Total(CommitRows(s.rows, tx), VisibleOnTank(t, None)) == Total(s.rows, OnTank(t))
  {
    TotalCommit(s.rows, tx, t);
    TotalSame(CommitRows(s.rows, tx), VisibleOnTank(t, None), OnTank(t)) by {
      forall r | r in CommitRows(s.rows, tx) && r.tank == t ensures r.committed {
        var i :| 0 <= i < |s.rows| && CommitRows(s.rows, tx)[i] == r;
        assert s.rows[i] in s.rows;
      }
    }
  }

  function Moved(o: Order, t: Tank): int {
    if t == o.source then -o.litres else if t == o.target then o.litres else 0
  }

  lemma CommitBooks(h: Hash, s: System, tx: Tx)
    requires Inv(h, s.ledger) && tx in s.jobs && s.jobs[tx].pc.Commits? && JobOk(h, s, tx)
    requires ValidOrder(s.orders[s.jobs[tx].order])
    ensures var o := s.orders[s.jobs[tx].order];
      && (forall t :: Total(CommitRows(s.ledger.rows, tx), VisibleOnTank(t, None))
                   == Total(s.ledger.rows, VisibleOnTank(t, None)) + Moved(o, t))
      && Total(CommitRows(s.ledger.rows, tx), VisibleOnTank(o.source, None)) >= 0
  {
    var id := s.jobs[tx].order;
    var o, rows := s.orders[id], s.ledger.rows;
    forall t
      ensures Total(CommitRows(rows, tx), VisibleOnTank(t, None)) == Total(rows, VisibleOnTank(t, None)) + Moved(o, t)
    {
      CommitAddsOwn(rows, tx, t);
      LegsTotal(Select(rows, Own(tx)), id, o, t);
    }
    BooksAfterCommit(h, s.ledger, tx, o.source);
  }

  /** Completing a receive moves the litres from the source to the target and nowhere else, does
      not overdraw the source, and marks the order received. */
  ghost predicate StockMoved(s: System, s': System, id: nat) {
    && id in s.orders && s.orders[id].status in {Approved, Dispatched}
    && s'.orders == s.orders[id := s.orders[id].(status := Received)]
    && (forall t :: Total(s'.ledger.rows, VisibleOnTank(t, None))
                 == Total(s.ledger.rows, VisibleOnTank(t, None)) + Moved(s.orders[id], t))
    && Total(s'.ledger.rows, VisibleOnTank(s.orders[id].source, None)) >= 0
  }

  lemma FinishMovesStock(h: Hash, products: Products, s: System, tx: Tx)
    requires Inv(h, s.ledger) && JobsOk(h, s) && LegsOk(s) && tx in s.jobs && s.jobs[tx].pc.Commits?
    ensures StockMoved(s, Statement(h, products, s, tx), s.jobs[tx].order)
  {
    assert JobOk(h, s, tx);
    CommitBooks(h, s, tx);
  }

  lemma ReceiveMovesStock(h: Hash, products: Products, moves: seq<Move>, tx: Tx)
    requires var s := RunMoves(h, products, Empty, moves); tx in s.jobs && s.jobs[tx].pc.Commits?
    ensures var s := RunMoves(h, products, Empty, moves);
      StockMoved(s, Apply(h, products, s, Advance(tx)), s.jobs[tx].order)
  {
    MovesKeep(h, products, Empty, moves);
    FinishMovesStock(h, products, RunMoves(h, products, Empty, moves), tx);
  }

  // ---- Orders, and everyone else ----

  /** An order appears as a valid draft, keeps its tanks, product and litres, is approved once while nobody receives it,
      and becomes received exactly when a receive of it commits. */
  lemma LifeOfOrder(h: Hash, products: Products, s: System, m: Move, id: nat)
    ensures var s' := Apply(h, products, s, m);
      var commits := m.Advance? && m.tx in s.jobs && s.jobs[m.tx] == Job(id, Commits);
      && (id in s'.orders
          <==> id in s.orders || (m.Create? && m.id == id && ValidOrder(m.order) && m.order.status.Draft?))
      && (id in s'.orders && id !in s.orders ==> s'.orders[id] == m.order)
      && (id in s.orders ==>
            var o, o' := s.orders[id], s'.orders[id];
            && o' == o.(status := o'.status)
            && (o'.status.Received? <==> o.status.Received? || commits)
            && (o'.status.Approved? && !o.status.Approved?
                <==> m == Approve(id) && id !in s.rowLocks && o.status.Draft?)
            && (o'.status == o.status || o'.status.Received? || o'.status.Approved?))
  {
  }

  /** What the others do, as moves of this system. */
  function AsMove(step: Step): Move {
    if step.Insert? then OutsidePost(step.tx, step.tank, step.kind, step.amount) else Outside(step)
  }

  function AsMoves(steps: seq<Step>): seq<Move> {
    seq(|steps|, i requires 0 <= i < |steps| => AsMove(steps[i]))
  }

  /** Every run of the stock ledger in which nobody posts for an order is a run of this system. */
  lemma {:induction false} LedgerRuns(h: Hash, products: Products, s: System, steps: seq<Step>)
    requires forall i :: 0 <= i < |steps| ==> steps[i].tx !in s.jobs && (steps[i].Insert? ==> steps[i].order.None?)
    ensures RunMoves(h, products, s, AsMoves(steps)) == s.(ledger := StockLedger.Run(h, s.ledger, steps))
    decreases |steps|
  {
    if steps == [] {
      assert AsMoves(steps) == [];
    } else {
      var s' := Apply(h, products, s, AsMove(steps[0]));
      assert s' == s.(ledger := Exec(h, s.ledger, steps[0]));
      assert AsMoves(steps)[0] == AsMove(steps[0]) && AsMoves(steps)[1..] == AsMoves(steps[1..]);
      LedgerRuns(h, products, s', steps[1..]);
    }
  }

  // ---- A receive that is left alone ----

  /** Nobody uses the number, the order's row and both keys are free. */
  ghost predicate Unhindered(h: Hash, s: System, tx: Tx, id: nat) {
    && tx !in s.ledger.active && tx !in s.ledger.ending && tx !in s.jobs
    && id in s.orders && id !in s.rowLocks
    && h(s.orders[id].source.id) !in s.ledger.locks && h(s.orders[id].target.id) !in s.ledger.locks
  }

  /** The order may be received: approved or dispatched, both tanks of its product, enough in the source. */
  predicate Receivable(products: Products, s: System, id: nat)
    requires id in s.orders
  {
    var o := s.orders[id];
    && (o.status.Approved? || o.status.Dispatched?)
    && products(o.source) == o.product && products(o.target) == o.product
    && Total(s.ledger.rows, VisibleOnTank(o.source, None)) >= o.litres
  }

  function Alone(tx: Tx, id: nat): seq<Move> {
    [Start(tx, id)] + seq(7, _ => Advance(tx))
  }

  /** The system while the receive holds its order and some keys. */
  function During(s: System, tx: Tx, id: nat, locks: map<int, Tx>, pc: Pc): System {
    System(s.ledger.(active := s.ledger.active + {tx}, locks := locks), s.orders, s.rowLocks[id := tx],
           s.jobs[tx := Job(id, pc)])
  }

  lemma NothingOf(h: Hash, s: System, tx: Tx)
    requires SysInv(h, s) && tx !in s.ledger.active && tx !in s.ledger.ending && tx !in s.jobs
    ensures forall r :: r in s.ledger.rows && !r.committed ==> r.owner != tx
    ensures forall k :: k in s.ledger.locks ==> s.ledger.locks[k] != tx
    ensures forall o :: o in s.rowLocks ==> s.rowLocks[o] != tx
  {
    forall k | k in s.ledger.locks ensures s.ledger.locks[k] != tx {
      assert s.ledger.locks[k] in s.ledger.active + s.ledger.ending;
    }
  }

  lemma {:induction false} KeptWhole(rows: seq<Row>, tx: Tx)
    requires forall i :: 0 <= i < |rows| ==> rows[i].committed || rows[i].owner != tx
    ensures Select(rows, Kept(tx)) == rows
  {
    if rows != [] {
      KeptWhole(rows[..|rows| - 1], tx);
      SelectSnoc(rows[..|rows| - 1], rows[|rows| - 1], Kept(tx));
      assert rows == rows[..|rows| - 1] + [rows[|rows| - 1]];
    }
  }

  /** Giving up leaves the system as it was. */
  lemma GivesUp(h: Hash, s: System, s': System, tx: Tx)
    requires SysInv(h, s) && tx !in s.ledger.active && tx !in s.ledger.ending && tx !in s.jobs && tx in s'.jobs
    requires s'.ledger == s.ledger.(active := s.ledger.active + {tx}, locks := s'.ledger.locks)
    requires s'.orders == s.orders && s'.jobs - {tx} == s.jobs
    requires Free(s'.ledger.locks, tx) == s.ledger.locks && Unlock(s'.rowLocks, tx) == s.rowLocks
    ensures Aborted(h, s', tx) == s
  {
    NothingOf(h, s, tx);
    forall i | 0 <= i < |s.ledger.rows| ensures s.ledger.rows[i].committed || s.ledger.rows[i].owner != tx {
      assert s.ledger.rows[i] in s.ledger.rows;
    }
    KeptWhole(s.ledger.rows, tx);
    assert s'.ledger.active - {tx} == s.ledger.active;
  }

  lemma FreedLocks(locks: map<int, Tx>, a: int, b: int, tx: Tx)
    requires a !in locks && b !in locks && forall k :: k in locks ==> locks[k] != tx
    ensures Free(locks[a := tx][b := tx], tx) == locks && Free(locks, tx) == locks
  {
    var freed, same := Free(locks[a := tx][b := tx], tx), Free(locks, tx);
    assert forall k :: k in freed <==> k in locks;
    assert forall k :: k in same <==> k in locks;
    assert freed == locks && same == locks;
  }

  lemma UnlockedRows(rowLocks: map<nat, Tx>, id: nat, tx: Tx)
    requires id !in rowLocks && forall o :: o in rowLocks ==> rowLocks[o] != tx
    ensures Unlock(rowLocks[id := tx], tx) == rowLocks && Unlock(rowLocks, tx) == rowLocks
  {
    var a, b := Unlock(rowLocks[id := tx], tx), Unlock(rowLocks, tx);
    assert forall o :: o in a <==> o in rowLocks;
    assert forall o :: o in b <==> o in rowLocks;
    assert a == rowLocks && b == rowLocks;
  }

  function LowKey(h: Hash, o: Order): int {
    h(LowTank(h, o).id)
  }

  function HighKey(h: Hash, o: Order): int {
    h(HighTank(h, o).id)
  }

  /** The first statement: the order is locked, or the receive is over. */
  lemma OrderTaken(h: Hash, products: Products, s: System, tx: Tx, id: nat)
    requires SysInv(h, s) && Unhindered(h, s, tx, id)
    ensures var o, began := s.orders[id], Apply(h, products, s, Start(tx, id));
      var fits := (o.status.Approved? || o.status.Dispatched?)
        && products(o.source) == o.product && products(o.target) == o.product;
      Apply(h, products, began, Advance(tx)) == if fits then During(s, tx, id, s.ledger.locks, WantsLowKey) else s
  {
    var began := Apply(h, products, s, Start(tx, id));
    NothingOf(h, s, tx);
    FreedLocks(s.ledger.locks, LowKey(h, s.orders[id]), HighKey(h, s.orders[id]), tx);
    UnlockedRows(s.rowLocks, id, tx);
    assert began.jobs - {tx} == s.jobs;
    GivesUp(h, s, began, tx);
  }

  /** Both keys are taken. */
  lemma KeysTaken(h: Hash, products: Products, s: System, tx: Tx, id: nat)
    requires Unhindered(h, s, tx, id)
    ensures var o, locks := s.orders[id], s.ledger.locks;
      var low := Apply(h, products, During(s, tx, id, locks, WantsLowKey), Advance(tx));
      && low == During(s, tx, id, locks[LowKey(h, o) := tx], WantsHighKey)
      && Apply(h, products, low, Advance(tx))
         == During(s, tx, id, locks[LowKey(h, o) := tx][HighKey(h, o) := tx], ChecksStock)
  {
  }

  lemma SeenAlone(h: Hash, s: System, tx: Tx, t: Tank)
    requires SysInv(h, s) && tx !in s.ledger.active && tx !in s.ledger.ending && tx !in s.jobs
    ensures Total(s.ledger.rows, VisibleOnTank(t, Some(tx))) == Total(s.ledger.rows, VisibleOnTank(t, None))
  {
    NothingOf(h, s, tx);
    TotalSame(s.ledger.rows, VisibleOnTank(t, Some(tx)), VisibleOnTank(t, None));
  }

  lemma KeyedGivesUp(h: Hash, s: System, tx: Tx, id: nat, locks: map<int, Tx>)
    requires SysInv(h, s) && Unhindered(h, s, tx, id)
    requires locks == s.ledger.locks[LowKey(h, s.orders[id]) := tx][HighKey(h, s.orders[id]) := tx]
    ensures Aborted(h, During(s, tx, id, locks, ChecksStock), tx) == s
  {
    var mid := During(s, tx, id, locks, ChecksStock);
    NothingOf(h, s, tx);
    FreedLocks(s.ledger.locks, LowKey(h, s.orders[id]), HighKey(h, s.orders[id]), tx);
    UnlockedRows(s.rowLocks, id, tx);
    assert mid.jobs - {tx} == s.jobs;
    GivesUp(h, s, mid, tx);
  }

  lemma CheckIs(h: Hash, products: Products, s: System, tx: Tx, id: nat, locks: map<int, Tx>)
    requires id in s.orders
    ensures var o, mid := s.orders[id], During(s, tx, id, locks, ChecksStock);
      Apply(h, products, mid, Advance(tx))
      == if Total(s.ledger.rows, VisibleOnTank(o.source, Some(tx))) >= o.litres then During(s, tx, id, locks, PostsOut)
         else Aborted(h, mid, tx)
  {
    var mid := During(s, tx, id, locks, ChecksStock);
    assert mid.jobs[tx := Job(id, PostsOut)] == s.jobs[tx := Job(id, PostsOut)];
  }

  /** The stock is checked: enough, or the receive is over. */
  lemma StockChecked(h: Hash, products: Products, s: System, tx: Tx, id: nat, locks: map<int, Tx>)
    requires SysInv(h, s) && Unhindered(h, s, tx, id)
    requires locks == s.ledger.locks[LowKey(h, s.orders[id]) := tx][HighKey(h, s.orders[id]) := tx]
    ensures var o := s.orders[id];
      var enough := Total(s.ledger.rows, VisibleOnTank(o.source, None)) >= o.litres;
      Apply(h, products, During(s, tx, id, locks, ChecksStock), Advance(tx))
      == if enough then During(s, tx, id, locks, PostsOut) else s
  {
    SeenAlone(h, s, tx, s.orders[id].source);
    KeyedGivesUp(h, s, tx, id, locks);
    CheckIs(h, products, s, tx, id, locks);
  }

  /** From the first leg on nothing stops the receive. */
  lemma LegsGoThrough(h: Hash, products: Products, s: System, tx: Tx, id: nat)
    requires tx in s.jobs && s.jobs[tx] == Job(id, PostsOut) && id in s.orders
    ensures var one := Apply(h, products, s, Advance(tx));
      var two := Apply(h, products, one, Advance(tx));
      var done := Apply(h, products, two, Advance(tx));
      done.orders == s.orders[id := s.orders[id].(status := Received)] && tx !in done.jobs
  {
  }

  lemma {:induction false} RunTwice(h: Hash, products: Products, s: System, a: seq<Move>, b: seq<Move>)
    ensures RunMoves(h, products, s, a + b) == RunMoves(h, products, RunMoves(h, products, s, a), b)
    decreases |a|
  {
    if a == [] {
      assert a + b == b;
    } else {
      assert (a + b)[1..] == a[1..] + b;
      RunTwice(h, products, Apply(h, products, s, a[0]), a[1..], b);
    }
  }

  lemma TwoMoves(h: Hash, products: Products, s: System, m: Move, n: Move)
    ensures RunMoves(h, products, s, [m, n]) == Apply(h, products, Apply(h, products, s, m), n)
  {
    var a, b := [m, n], [n];
    assert a[1..] == b && b[1..] == [];
    var s' := Apply(h, products, s, m);
    assert RunMoves(h, products, s', b) == RunMoves(h, products, Apply(h, products, s', n), []);
  }

  lemma {:induction false} NoJobNoMove(h: Hash, products: Products, s: System, tx: Tx, n: nat)
    requires tx !in s.jobs
    ensures RunMoves(h, products, s, seq(n, _ => Advance(tx))) == s
  {
    if n > 0 {
      var moves := seq(n, _ => Advance(tx));
      assert moves[0] == Advance(tx) && moves[1..] == seq(n - 1, _ => Advance(tx));
      NoJobNoMove(h, products, s, tx, n - 1);
    }
  }

  lemma ThreeMoves(h: Hash, products: Products, s: System, tx: Tx)
    ensures var go := Advance(tx);
      RunMoves(h, products, s, seq(3, _ => go))
      == Apply(h, products, Apply(h, products, Apply(h, products, s, go), go), go)
  {
    var go := Advance(tx);
    assert seq(3, _ => go) == [go] + [go, go];
    assert ([go] + [go, go])[1..] == [go, go];
    TwoMoves(h, products, Apply(h, products, s, go), go, go);
  }

  lemma FromTheOrder(h: Hash, products: Products, s: System, tx: Tx, id: nat)
    requires SysInv(h, s) && Unhindered(h, s, tx, id)
    ensures var o, mid := s.orders[id], During(s, tx, id, s.ledger.locks, WantsLowKey);
      var after := RunMoves(h, products, mid, seq(6, _ => Advance(tx)));
      if Total(s.ledger.rows, VisibleOnTank(o.source, None)) >= o.litres
      then tx !in after.jobs && after.orders == s.orders[id := o.(status := Received)]
      else after == s
  {
    var go, o := Advance(tx), s.orders[id];
    var locks := s.ledger.locks[LowKey(h, o) := tx][HighKey(h, o) := tx];
    var mid, keyed := During(s, tx, id, s.ledger.locks, WantsLowKey), During(s, tx, id, locks, ChecksStock);
    KeysTaken(h, products, s, tx, id);
    TwoMoves(h, products, mid, go, go);
    RunTwice(h, products, mid, [go, go], seq(4, _ => go));
    assert seq(6, _ => go) == [go, go] + seq(4, _ => go);
    StockChecked(h, products, s, tx, id, locks);
    var checked := Apply(h, products, keyed, go);
    var four, three := seq(4, _ => go), seq(3, _ => go);
    assert four[0] == go && four[1..] == three;
    if Total(s.ledger.rows, VisibleOnTank(o.source, None)) >= o.litres {
      ThreeMoves(h, products, checked, tx);
      LegsGoThrough(h, products, checked, tx, id);
    } else {
      NoJobNoMove(h, products, s, tx, 3);
    }
  }

  /** A receive that nobody hinders completes if and only if its order may be received, and otherwise leaves everything
      as it was. */
  lemma ReceivedIffReceivable(h: Hash, products: Products, moves: seq<Move>, tx: Tx, id: nat)
    requires Unhindered(h, RunMoves(h, products, Empty, moves), tx, id)
    ensures var s := RunMoves(h, products, Empty, moves);
      var after := RunMoves(h, products, s, Alone(tx, id));
      if Receivable(products, s, id)
      then tx !in after.jobs && after.orders == s.orders[id := s.orders[id].(status := Received)]
      else after == s
  {
    var s, go := RunMoves(h, products, Empty, moves), Advance(tx);
    MovesKeep(h, products, Empty, moves);
    var taken := Apply(h, products, Apply(h, products, s, Start(tx, id)), go);
    OrderTaken(h, products, s, tx, id);
    TwoMoves(h, products, s, Start(tx, id), go);
    RunTwice(h, products, s, [Start(tx, id), go], seq(6, _ => go));
    assert Alone(tx, id) == [Start(tx, id), go] + seq(6, _ => go);
    if taken == s {
      NoJobNoMove(h, products, s, tx, 6);
    } else {
      FromTheOrder(h, products, s, tx, id);
    }
  }

  /** Litres on the committed books of all tanks together. */
  lemma {:induction false} CommitAddsAll(rows: seq<Row>, tx: Tx)
    ensures Total(CommitRows(rows, tx), Committed()) == Total(rows, Committed()) + Total(Select(rows, Own(tx)), All())
  {
    if rows != [] {
      var before, last := rows[..|rows| - 1], rows[|rows| - 1];
      CommitAddsAll(before, tx);
      assert CommitRows(rows, tx)[..|rows| - 1] == CommitRows(before, tx);
      if Own(tx)(last) {
        TotalSnoc(Select(before, Own(tx)), last, All());
      }
    }
  }

  function Committed(): Row -> bool {
    (r: Row) => r.committed
  }

  function All(): Row -> bool {
    (r: Row) => true
  }

  lemma OnlyCommitCounts(h: Hash, s: State, step: Step)
    requires !step.Commit?
    ensures Total(Exec(h, s, step).rows, Committed()) == Total(s.rows, Committed())
  {
    match step
    case Insert(tx, t, kind, amount, order) => TotalSnoc(s.rows, NewRow(s, tx, t, kind, amount, order), Committed());
    case Rollback(tx) => TotalSelect(s.rows, Committed(), Kept(tx));
    case _ =>
  }

  lemma LegsCancel(rows: seq<Row>, id: nat, o: Order)
    requires BothLegs(rows, id, o)
    ensures Total(rows, All()) == 0
  {
    TotalSnoc([], rows[0], All());
    TotalSnoc([rows[0]], rows[1], All());
    assert rows == [rows[0]] + [rows[1]] && [rows[0]] == [] + [rows[0]];
  }

  lemma CommitBalances(s: System, tx: Tx)
    requires tx in s.jobs && s.jobs[tx].pc.Commits? && s.jobs[tx].order in s.orders && RowsPosted(s, tx)
    ensures Total(CommitRows(s.ledger.rows, tx), Committed()) == Total(s.ledger.rows, Committed())
  {
    CommitAddsAll(s.ledger.rows, tx);
    LegsCancel(Select(s.ledger.rows, Own(tx)), s.jobs[tx].order, s.orders[s.jobs[tx].order]);
  }

  lemma StatementConserves(h: Hash, products: Products, s: System, tx: Tx)
    requires tx in s.jobs && JobOk(h, s, tx)
    ensures Total(Statement(h, products, s, tx).ledger.rows, Committed()) == Total(s.ledger.rows, Committed())
  {
    OnlyCommitCounts(h, s.ledger, Rollback(tx));
    if !s.jobs[tx].pc.WantsOrder? {
      var id := s.jobs[tx].order;
      var o := s.orders[id];
      match s.jobs[tx].pc
      case WantsLowKey => OnlyCommitCounts(h, s.ledger, Lock(tx, LowTank(h, o)));
      case WantsHighKey => OnlyCommitCounts(h, s.ledger, Lock(tx, HighTank(h, o)));
      case ChecksStock =>
      case PostsOut => OnlyCommitCounts(h, s.ledger, Insert(tx, o.source, Transfer, Outgoing(o) as real, Some(id)));
      case PostsIn => OnlyCommitCounts(h, s.ledger, Insert(tx, o.target, Transfer, o.litres as real, Some(id)));
      case Commits => CommitBalances(s, tx);
    }
  }

  lemma AdvanceConserves(h: Hash, products: Products, s: System, tx: Tx)
    requires SysInv(h, s) && tx in s.jobs
    ensures Total(Apply(h, products, s, Advance(tx)).ledger.rows, Committed()) == Total(s.ledger.rows, Committed())
  {
    assert JobOk(h, s, tx);
    StatementConserves(h, products, s, tx);
  }

  /** No statement of a receive makes or loses fuel on the committed books. */
  lemma ReceiveConservesStock(h: Hash, products: Products, moves: seq<Move>, tx: Tx)
    requires tx in RunMoves(h, products, Empty, moves).jobs
    ensures var s := RunMoves(h, products, Empty, moves);
      Total(Apply(h, products, s, Advance(tx)).ledger.rows, Committed()) == Total(s.ledger.rows, Committed())
  {
    MovesKeep(h, products, Empty, moves);
    AdvanceConserves(h, products, RunMoves(h, products, Empty, moves), tx);
  }

  // ---- At most once ----

  lemma ReceivedStays(h: Hash, products: Products, s: System, m: Move, id: nat)
    requires SysInv(h, s) && id in s.orders && s.orders[id].status.Received?
    ensures var s' := Apply(h, products, s, m);
      && id in s'.orders && s'.orders[id] == s.orders[id]
      && Select(s'.ledger.rows, LegOf(id)) == Select(s.ledger.rows, LegOf(id))
  {
    match m
    case Create(_, _) =>
    case Approve(_) =>
    case Start(tx, _) => LegsUntouched(h, s.ledger, Begin(tx), id);
    case Advance(tx) => if tx in s.jobs { ReceivedStaysInJob(h, products, s, tx, id); }
    case Abort(tx) => LegsUntouched(h, s.ledger, Rollback(tx), id);
    case Outside(step) => if step.tx !in s.jobs { LegsUntouched(h, s.ledger, step, id); }
    case OutsidePost(tx, t, kind, amount) => LegsUntouched(h, s.ledger, Insert(tx, t, kind, amount, None), id);
  }

  lemma ReceivedStaysInJob(h: Hash, products: Products, s: System, tx: Tx, id: nat)
    requires JobsOk(h, s) && tx in s.jobs && id in s.orders && s.orders[id].status.Received?
    ensures var s' := Statement(h, products, s, tx);
      && id in s'.orders && s'.orders[id] == s.orders[id]
      && Select(s'.ledger.rows, LegOf(id)) == Select(s.ledger.rows, LegOf(id))
  {
    assert JobOk(h, s, tx);
    LegsUntouched(h, s.ledger, Rollback(tx), id);
    if !s.jobs[tx].pc.WantsOrder? {
      var o := s.orders[s.jobs[tx].order];
      match s.jobs[tx].pc
      case WantsLowKey => LegsUntouched(h, s.ledger, Lock(tx, LowTank(h, o)), id);
      case WantsHighKey => LegsUntouched(h, s.ledger, Lock(tx, HighTank(h, o)), id);
      case ChecksStock =>
      case PostsOut =>
        LegsUntouched(h, s.ledger, Insert(tx, o.source, Transfer, Outgoing(o) as real, Some(s.jobs[tx].order)), id);
      case PostsIn =>
        LegsUntouched(h, s.ledger, Insert(tx, o.target, Transfer, o.litres as real, Some(s.jobs[tx].order)), id);
      case Commits => OtherLegs(s, tx, id);
    }
  }

  lemma {:induction false} ReceivedForever(h: Hash, products: Products, s: System, moves: seq<Move>, id: nat)
    requires SysInv(h, s) && id in s.orders && s.orders[id].status.Received?
    ensures var s' := RunMoves(h, products, s, moves);
      && id in s'.orders && s'.orders[id] == s.orders[id]
      && Select(s'.ledger.rows, LegOf(id)) == Select(s.ledger.rows, LegOf(id))
    decreases |moves|
  {
    if moves != [] {
      MoveKeeps(h, products, s, moves[0]);
      ReceivedStays(h, products, s, moves[0], id);
      ReceivedForever(h, products, Apply(h, products, s, moves[0]), moves[1..], id);
    }
  }

  /** An order's stock moves at most once in any run: nothing is on the books for it until it is
      received; from then on exactly one outgoing and one incoming leg are, the same two forever. */
  lemma ReceivedOnce(h: Hash, products: Products, past: seq<Move>, future: seq<Move>, id: nat)
    ensures var s := RunMoves(h, products, Empty, past);
      var s' := RunMoves(h, products, s, future);
      var legs := Select(s.ledger.rows, LegOf(id));
      if id in s.orders && s.orders[id].status.Received?
      then
        && BothLegs(legs, id, s.orders[id])
        && id in s'.orders && s'.orders[id] == s.orders[id] && Select(s'.ledger.rows, LegOf(id)) == legs
      else legs == []
  {
    var s := RunMoves(h, products, Empty, past);
    MovesKeep(h, products, Empty, past);
    assert LegsOkFor(s, id);
    if id in s.orders && s.orders[id].status.Received? {
      ReceivedForever(h, products, s, future, id);
    }
  }
}

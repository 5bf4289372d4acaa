/** Row locks around operating days, shifts, cash submissions and approvals.

Each transaction locks its day or shift row, FOR SHARE or FOR UPDATE, re-reads the status under the
lock, makes its checks one statement at a time, and commits.  It reads committed rows only, and what it
writes appears at its commit.
 */
module ShiftLocks {
  import opened Wrappers

  type Tx = nat

  datatype DayStatus = DayOpen | DayClosed | DayLocked

  datatype ShiftStatus = Open | Closed | Approved

  datatype Shift = Shift(day: nat, status: ShiftStatus)

  datatype Exception = Exception(shift: nat, resolved: bool)

  datatype Receipt = Received | ApprovedWithDifference | Rejected | Flagged

  datatype Work =
    | OpenShift(day: nat, shift: nat)
    | SetDay(day: nat, target: DayStatus)
    | CloseShift(shift: nat)
    | SubmitCash(shift: nat, submission: nat, raises: Option<nat>)
    | ConfirmCash(shift: nat, submission: nat, verdict: Receipt)
    | ApproveShift(shift: nat)

  /** `Waiting` for the row lock; `Locked` with the status checked; then the checks that follow. */
  datatype Pc = Waiting | Locked | ExceptionsClear | Ready

  datatype Job = Job(work: Work, pc: Pc)

  /** `submissions` maps each cash submission to its shift, `receipts` each confirmed one to its verdict. */
  datatype State = State(days: map<nat, DayStatus>, shifts: map<nat, Shift>, exceptions: map<nat, Exception>,
                         submissions: map<nat, nat>, receipts: map<nat, Receipt>, jobs: map<Tx, Job>)

  const Start := State(map[], map[], map[], map[], map[], map[])

  datatype Step =
    | OpenDay(day: nat)
    | Resolve(exception: nat)
    | Begin(tx: Tx, work: Work)
    | Advance(tx: Tx)
    | Abort(tx: Tx)

  // ---- Locks ----

  predicate LocksDay(w: Work) {
    w.OpenShift? || w.SetDay?
  }

  predicate ForUpdate(w: Work) {
    w.SetDay? || w.CloseShift? || w.ApproveShift?
  }

  /** Both lock the same row and one of them FOR UPDATE. */
  predicate Conflict(a: Work, b: Work) {
    && (ForUpdate(a) || ForUpdate(b))
    && (LocksDay(a) <==> LocksDay(b))
    && (if LocksDay(a) then a.day == b.day else a.shift == b.shift)
  }

  predicate Free(s: State, tx: Tx, w: Work) {
    forall other :: other in s.jobs && other != tx && !s.jobs[other].pc.Waiting? ==> !Conflict(w, s.jobs[other].work)
  }

  // ---- What the checks read ----

  predicate NoOpenShift(s: State, day: nat) {
    forall sh :: sh in s.shifts && s.shifts[sh].day == day ==> !s.shifts[sh].status.Open?
  }

  predicate NoOpenException(s: State, shift: nat) {
    forall x :: x in s.exceptions && s.exceptions[x].shift == shift ==> s.exceptions[x].resolved
  }

  predicate Good(r: Receipt) {
    r.Received? || r.ApprovedWithDifference?
  }

  predicate NothingAwaiting(s: State, shift: nat) {
    forall c :: c in s.submissions && s.submissions[c] == shift ==> c in s.receipts && Good(s.receipts[c])
  }

  predicate ShiftIs(s: State, shift: nat, status: ShiftStatus) {
    shift in s.shifts && s.shifts[shift].status == status
  }

  /** The status check made when the lock is granted. */
  predicate StatusAllows(s: State, w: Work) {
    match w
    case OpenShift(day, _) => day in s.days && s.days[day].DayOpen?
    case SetDay(day, target) => day in s.days && !s.days[day].DayLocked? && s.days[day] != target && !target.DayLocked?
    case CloseShift(shift) => ShiftIs(s, shift, Open)
    case SubmitCash(shift, _, _) => ShiftIs(s, shift, Closed)
    case ConfirmCash(shift, c, _) => ShiftIs(s, shift, Closed) && c in s.submissions && s.submissions[c] == shift
    case ApproveShift(shift) => ShiftIs(s, shift, Closed)
  }

  // ---- Commits ----

  /** Unique indexes and immutable receipts may still refuse the write. */
  predicate WriteAllowed(s: State, w: Work) {
    match w
    case OpenShift(_, shift) => shift !in s.shifts
    case SubmitCash(shift, c, raises) =>
      && c !in s.submissions && (forall other :: other in s.submissions ==> s.submissions[other] != shift)
      && (raises.Some? ==> raises.value !in s.exceptions)
    case ConfirmCash(_, c, _) => c in s.receipts ==> !Good(s.receipts[c])
    case _ => true
  }

  function Write(s: State, w: Work): State {
    match w
    case OpenShift(day, shift) => s.(shifts := s.shifts[shift := Shift(day, Open)])
    case SetDay(day, target) => s.(days := s.days[day := target])
    case CloseShift(shift) => if shift in s.shifts
      then s.(shifts := s.shifts[shift := s.shifts[shift].(status := Closed)]) else s
    case SubmitCash(shift, c, raises) =>
      s.(submissions := s.submissions[c := shift],
         exceptions := if raises.Some? then s.exceptions[raises.value := Exception(shift, false)] else s.exceptions)
    case ConfirmCash(_, c, verdict) => s.(receipts := s.receipts[c := verdict])
    case ApproveShift(shift) => if shift in s.shifts
      then s.(shifts := s.shifts[shift := s.shifts[shift].(status := Approved)]) else s
  }

  function Drop(s: State, tx: Tx): State {
    s.(jobs := s.jobs - {tx})
  }

  function Committed(s: State, tx: Tx): State
    requires tx in s.jobs
  {
    if WriteAllowed(s, s.jobs[tx].work) then Drop(Write(s, s.jobs[tx].work), tx) else Drop(s, tx)
  }

  function To(s: State, tx: Tx, pc: Pc): State
    requires tx in s.jobs
  {
    s.(jobs := s.jobs[tx := s.jobs[tx].(pc := pc)])
  }

  /** What a check comes to: the statement waits for the lock, the request is refused, or it goes on. */
  datatype Verdict = Waits | Refused | GoesOn(pc: Pc)

  function Check(s: State, tx: Tx, job: Job): Verdict {
    match job.pc
    case Waiting =>
      if !Free(s, tx, job.work) then Waits
      else if !StatusAllows(s, job.work) then Refused
      else GoesOn(Locked)
    case Locked =>
      if job.work.SetDay? && job.work.target.DayClosed? then
        if NoOpenShift(s, job.work.day) then GoesOn(Ready) else Refused
      else if job.work.ApproveShift? then
        if NoOpenException(s, job.work.shift) then GoesOn(ExceptionsClear) else Refused
      else GoesOn(Ready)
    case ExceptionsClear =>
      if job.work.ApproveShift? && NothingAwaiting(s, job.work.shift) then GoesOn(Ready) else Refused
    case Ready => GoesOn(Ready)
  }

  /** The next statement of a transaction. */
  function Statement(s: State, tx: Tx): State
    requires tx in s.jobs
  {
    if s.jobs[tx].pc.Ready? then Committed(s, tx)
    else
      match Check(s, tx, s.jobs[tx])
      case Waits => s
      case Refused => Drop(s, tx)
      case GoesOn(pc) => To(s, tx, pc)
  }

  function Apply(s: State, step: Step): State {
    match step
    case OpenDay(day) => if day in s.days then s else s.(days := s.days[day := DayOpen])
    case Resolve(x) => if x in s.exceptions
      then s.(exceptions := s.exceptions[x := s.exceptions[x].(resolved := true)]) else s
    case Begin(tx, work) => if tx in s.jobs then s else s.(jobs := s.jobs[tx := Job(work, Waiting)])
    case Advance(tx) => if tx in s.jobs then Statement(s, tx) else s
    case Abort(tx) => Drop(s, tx)
  }

  function Run(s: State, steps: seq<Step>): State
    decreases |steps|
  {
    if steps == [] then s else Run(Apply(s, steps[0]), steps[1..])
  }

  // ---- Invariant ----

  /** What a transaction checked is still so. */
  ghost predicate JobOk(s: State, job: Job) {
    !job.pc.Waiting? ==>
      && StatusAllows(s, job.work)
      && (job.work.SetDay? && job.work.target.DayClosed? && job.pc.Ready? ==> NoOpenShift(s, job.work.day))
      && (job.work.ApproveShift? && !job.pc.Locked? ==> NoOpenException(s, job.work.shift))
      && (job.work.ApproveShift? && job.pc.Ready? ==> NothingAwaiting(s, job.work.shift))
  }

  ghost predicate JobsOk(s: State) {
    forall tx :: tx in s.jobs ==> JobOk(s, s.jobs[tx])
  }

  ghost predicate LocksOk(s: State) {
    forall a, b :: a in s.jobs && b in s.jobs && a != b && !s.jobs[a].pc.Waiting? && !s.jobs[b].pc.Waiting? ==>
      !Conflict(s.jobs[a].work, s.jobs[b].work)
  }

  /** An open shift is on an open day. */
  ghost predicate DaysOk(s: State) {
    forall sh :: sh in s.shifts && s.shifts[sh].status.Open? ==>
      s.shifts[sh].day in s.days && s.days[s.shifts[sh].day].DayOpen?
  }

  /** An approved shift has no open exception and no unconfirmed cash. */
  ghost predicate ApprovalsOk(s: State) {
    forall sh :: ShiftIs(s, sh, Approved) ==> NoOpenException(s, sh) && NothingAwaiting(s, sh)
  }

  ghost predicate RefsOk(s: State) {
    && (forall x :: x in s.exceptions ==> s.exceptions[x].shift in s.shifts)
    && (forall c :: c in s.submissions ==> s.submissions[c] in s.shifts)
  }

  ghost predicate BooksOk(s: State) {
    DaysOk(s) && ApprovalsOk(s) && RefsOk(s)
  }

  ghost predicate Inv(s: State) {
    JobsOk(s) && LocksOk(s) && BooksOk(s)
  }

  // ---- Every step keeps it ----

  /** A job's knowledge survives a commit it does not conflict with. */
  lemma OthersUndisturbed(s: State, w: Work, job: Job)
    requires JobOk(s, job) && StatusAllows(s, w) && WriteAllowed(s, w)
    requires !job.pc.Waiting? ==> !Conflict(w, job.work)
    ensures JobOk(Write(s, w), job)
  {
  }

  lemma WriteKeepsDays(s: State, job: Job)
    requires DaysOk(s) && JobOk(s, job) && job.pc.Ready?
    ensures DaysOk(Write(s, job.work))
  {
  }

  lemma WriteKeepsRefs(s: State, job: Job)
    requires RefsOk(s) && JobOk(s, job) && job.pc.Ready?
    ensures RefsOk(Write(s, job.work))
  {
  }

  /** A write on another shift leaves an approved one as it is. */
  lemma WriteElsewhere(s: State, w: Work, sh: nat)
    requires NoOpenException(s, sh) && NothingAwaiting(s, sh)
    requires StatusAllows(s, w) && ShiftIs(s, sh, Approved) && WriteAllowed(s, w)
    ensures NoOpenException(Write(s, w), sh) && NothingAwaiting(Write(s, w), sh)
  {
  }

  lemma WriteKeepsApprovals(s: State, job: Job)
    requires ApprovalsOk(s) && JobOk(s, job) && job.pc.Ready? && WriteAllowed(s, job.work)
    ensures ApprovalsOk(Write(s, job.work))
  {
    var s' := Write(s, job.work);
    forall sh | ShiftIs(s', sh, Approved) ensures NoOpenException(s', sh) && NothingAwaiting(s', sh) {
      if ShiftIs(s, sh, Approved) {
        WriteElsewhere(s, job.work, sh);
      } else {
        NewlyApproved(s, job, sh);
      }
    }
  }

  lemma NewlyApproved(s: State, job: Job, sh: nat)
    requires JobOk(s, job) && job.pc.Ready? && !ShiftIs(s, sh, Approved) && ShiftIs(Write(s, job.work), sh, Approved)
    ensures NoOpenException(Write(s, job.work), sh) && NothingAwaiting(Write(s, job.work), sh)
  {
    assert job.work == ApproveShift(sh);
  }

  /** Only the jobs change, and only that of `tx`. */
  ghost predicate OneJob(s: State, s': State, tx: Tx) {
    && s' == s.(jobs := s'.jobs)
    && (forall other :: other in s'.jobs && other != tx ==> other in s.jobs && s.jobs[other] == s'.jobs[other])
  }

  lemma SameTables(s: State, s': State, job: Job)
    requires s' == s.(jobs := s'.jobs) && JobOk(s, job)
    ensures JobOk(s', job)
  {
  }

  lemma LocksKeep(s: State, s': State, tx: Tx)
    requires LocksOk(s)
    requires forall other :: other in s'.jobs && other != tx ==> other in s.jobs && s.jobs[other] == s'.jobs[other]
    requires tx in s'.jobs && !s'.jobs[tx].pc.Waiting? ==>
      Free(s, tx, s'.jobs[tx].work) || (tx in s.jobs && !s.jobs[tx].pc.Waiting? && s.jobs[tx].work == s'.jobs[tx].work)
    ensures LocksOk(s')
  {
  }

  lemma JobsKeep(s: State, s': State, tx: Tx)
    requires JobsOk(s) && OneJob(s, s', tx) && (tx in s'.jobs ==> JobOk(s', s'.jobs[tx]))
    ensures JobsOk(s')
  {
    forall other | other in s'.jobs && other != tx ensures JobOk(s', s'.jobs[other]) {
      assert JobOk(s, s.jobs[other]);
      SameTables(s, s', s.jobs[other]);
    }
  }

  lemma BooksSame(s: State, s': State)
    requires BooksOk(s) && s' == s.(jobs := s'.jobs)
    ensures BooksOk(s')
  {
    forall sh | ShiftIs(s', sh, Approved) ensures NoOpenException(s', sh) && NothingAwaiting(s', sh) {
      assert ShiftIs(s, sh, Approved) && NoOpenException(s, sh) && NothingAwaiting(s, sh);
    }
  }

  lemma OneJobKeeps(s: State, s': State, tx: Tx)
    requires Inv(s) && OneJob(s, s', tx) && (tx in s'.jobs ==> JobOk(s', s'.jobs[tx]))
    requires tx in s'.jobs && !s'.jobs[tx].pc.Waiting? ==>
      Free(s, tx, s'.jobs[tx].work) || (tx in s.jobs && !s.jobs[tx].pc.Waiting? && s.jobs[tx].work == s'.jobs[tx].work)
    ensures Inv(s')
  {
    JobsKeep(s, s', tx);
    LocksKeep(s, s', tx);
    BooksSame(s, s');
  }

  lemma WriteKeepsJobs(s: State, tx: Tx, w: Work)
    requires JobsOk(s) && LocksOk(s) && tx in s.jobs && s.jobs[tx] == Job(w, Ready) && WriteAllowed(s, w)
    ensures JobsOk(Drop(Write(s, w), tx))
  {
    var s' := Drop(Write(s, w), tx);
    assert JobOk(s, s.jobs[tx]);
    forall other | other in s'.jobs ensures JobOk(s', s'.jobs[other]) {
      assert JobOk(s, s.jobs[other]);
      OthersUndisturbed(s, w, s.jobs[other]);
      SameTables(Write(s, w), s', s.jobs[other]);
    }
  }

  lemma CommitKeeps(s: State, tx: Tx)
    requires Inv(s) && tx in s.jobs && s.jobs[tx].pc.Ready?
    ensures Inv(Committed(s, tx))
  {
    var w := s.jobs[tx].work;
    assert JobOk(s, s.jobs[tx]);
    if WriteAllowed(s, w) {
      WriteKeepsJobs(s, tx, w);
      WriteKeepsDays(s, s.jobs[tx]);
      WriteKeepsRefs(s, s.jobs[tx]);
      WriteKeepsApprovals(s, s.jobs[tx]);
      BooksSame(Write(s, w), Drop(Write(s, w), tx));
      LocksKeep(s, Drop(Write(s, w), tx), tx);
    } else {
      OneJobKeeps(s, Drop(s, tx), tx);
    }
  }

  /** A check that lets a job go on makes what the job then relies on true, and a lock is granted only where nobody
      holds one that conflicts. */
  lemma CheckedJob(s: State, tx: Tx, job: Job)
    requires JobOk(s, job) && !job.pc.Ready? && Check(s, tx, job).GoesOn?
    ensures JobOk(s, job.(pc := Check(s, tx, job).pc))
    ensures job.pc.Waiting? ==> Free(s, tx, job.work)
  {
  }

  lemma GoingOn(s: State, tx: Tx, pc: Pc)
    requires tx in s.jobs && JobOk(s, s.jobs[tx].(pc := pc))
    ensures OneJob(s, To(s, tx, pc), tx) && JobOk(To(s, tx, pc), To(s, tx, pc).jobs[tx])
  {
    SameTables(s, To(s, tx, pc), s.jobs[tx].(pc := pc));
  }

  lemma StatementKeeps(s: State, tx: Tx)
    requires Inv(s) && tx in s.jobs
    ensures Inv(Statement(s, tx))
  {
    var job := s.jobs[tx];
    assert JobOk(s, job);
    if job.pc.Ready? {
      CommitKeeps(s, tx);
    } else {
      match Check(s, tx, job)
      case Waits =>
      case Refused => OneJobKeeps(s, Drop(s, tx), tx);
      case GoesOn(pc) =>
        CheckedJob(s, tx, job);
        GoingOn(s, tx, pc);
        OneJobKeeps(s, To(s, tx, pc), tx);
    }
  }

  lemma OpenDayKeeps(s: State, day: nat)
    requires Inv(s) && day !in s.days
    ensures Inv(s.(days := s.days[day := DayOpen]))
  {
    var s' := s.(days := s.days[day := DayOpen]);
    forall tx | tx in s'.jobs ensures JobOk(s', s'.jobs[tx]) {
      assert JobOk(s, s.jobs[tx]);
    }
    forall sh | ShiftIs(s', sh, Approved) ensures NoOpenException(s', sh) && NothingAwaiting(s', sh) {
      assert ShiftIs(s, sh, Approved) && NoOpenException(s, sh) && NothingAwaiting(s, sh);
    }
  }

  lemma ResolveKeeps(s: State, x: nat)
    requires Inv(s) && x in s.exceptions
    ensures Inv(s.(exceptions := s.exceptions[x := s.exceptions[x].(resolved := true)]))
  {
    var s' := s.(exceptions := s.exceptions[x := s.exceptions[x].(resolved := true)]);
    forall tx | tx in s'.jobs ensures JobOk(s', s'.jobs[tx]) {
      assert JobOk(s, s.jobs[tx]);
    }
    forall sh | ShiftIs(s', sh, Approved) ensures NoOpenException(s', sh) && NothingAwaiting(s', sh) {
      assert ShiftIs(s, sh, Approved) && NoOpenException(s, sh) && NothingAwaiting(s, sh);
    }
  }

  lemma StepKeeps(s: State, step: Step)
    requires Inv(s)
    ensures Inv(Apply(s, step))
  {
    match step
    case OpenDay(day) => if day !in s.days { OpenDayKeeps(s, day); }
    case Resolve(x) => if x in s.exceptions { ResolveKeeps(s, x); }
    case Begin(tx, work) => if tx !in s.jobs { OneJobKeeps(s, Apply(s, step), tx); }
    case Advance(tx) => if tx in s.jobs { StatementKeeps(s, tx); }
    case Abort(tx) => OneJobKeeps(s, Apply(s, step), tx);
  }

  lemma {:induction false} RunKeeps(s: State, steps: seq<Step>)
    requires Inv(s)
    ensures Inv(Run(s, steps))
    decreases |steps|
  {
    if steps != [] {
      StepKeeps(s, steps[0]);
      RunKeeps(Apply(s, steps[0]), steps[1..]);
    }
  }

  /** In every committed state of every interleaving: a closed day has no open shift, an approved shift has no
      open exception, and each of its cash submissions has a terminal good receipt. */
  lemma BooksStayClosed(steps: seq<Step>)
    ensures var s := Run(Start, steps);
      && (forall sh :: sh in s.shifts && s.shifts[sh].status == Open ==>
            s.shifts[sh].day in s.days && s.days[s.shifts[sh].day] == DayOpen)
      && (forall x :: x in s.exceptions && ShiftIs(s, s.exceptions[x].shift, Approved) ==> s.exceptions[x].resolved)
      && (forall c :: c in s.submissions && ShiftIs(s, s.submissions[c], Approved) ==>
            c in s.receipts && s.receipts[c] in {Received, ApprovedWithDifference})
  {
    var s := Run(Start, steps);
    RunKeeps(Start, steps);
    forall x | x in s.exceptions && ShiftIs(s, s.exceptions[x].shift, Approved) ensures s.exceptions[x].resolved {
      assert NoOpenException(s, s.exceptions[x].shift);
    }
    forall c | c in s.submissions && ShiftIs(s, s.submissions[c], Approved)
      ensures c in s.receipts && s.receipts[c] in {Received, ApprovedWithDifference}
    {
      assert NothingAwaiting(s, s.submissions[c]);
    }
  }

  // ---- A transaction that nobody hinders ----

  predicate OnDay(w: Work, day: nat) {
    (w.OpenShift? || w.SetDay?) && w.day == day
  }

  predicate OnShift(w: Work, shift: nat) {
    (w.CloseShift? || w.SubmitCash? || w.ConfirmCash? || w.ApproveShift?) && w.shift == shift
  }

  predicate Shares(w: Work) {
    w.OpenShift? || w.SubmitCash? || w.ConfirmCash?
  }

  predicate SameRow(a: Work, b: Work) {
    if a.OpenShift? || a.SetDay? then OnDay(b, a.day) else OnShift(b, a.shift)
  }

  /** Whoever holds the row shares it, and so would this one. */
  ghost predicate Unhindered(s: State, tx: Tx, w: Work) {
    && tx !in s.jobs
    && forall other :: other in s.jobs && !s.jobs[other].pc.Waiting? && SameRow(w, s.jobs[other].work) ==>
        Shares(w) && Shares(s.jobs[other].work)
  }

  /** What the tables must hold for the work to be done. */
  ghost predicate Accepts(s: State, w: Work) {
    match w
    case OpenShift(day, shift) => day in s.days && s.days[day] == DayOpen && shift !in s.shifts
    case SetDay(day, target) =>
      && day in s.days && (s.days[day], target) in {(DayOpen, DayClosed), (DayClosed, DayOpen)}
      && (target == DayClosed ==> forall sh :: sh in s.shifts && s.shifts[sh].day == day ==> !s.shifts[sh].status.Open?)
    case CloseShift(shift) => shift in s.shifts && s.shifts[shift].status == Open
    case SubmitCash(shift, c, raises) =>
      && shift in s.shifts && s.shifts[shift].status == Closed && c !in s.submissions && shift !in s.submissions.Values
      && (raises.None? || raises.value !in s.exceptions)
    case ConfirmCash(shift, c, _) =>
      && shift in s.shifts && s.shifts[shift].status == Closed && c in s.submissions && s.submissions[c] == shift
      && (c !in s.receipts || s.receipts[c] in {Rejected, Flagged})
    case ApproveShift(shift) =>
      && shift in s.shifts && s.shifts[shift].status == Closed
      && (forall x :: x in s.exceptions && s.exceptions[x].shift == shift ==> s.exceptions[x].resolved)
      && (forall c :: c in s.submissions && s.submissions[c] == shift ==>
            c in s.receipts && s.receipts[c] in {Received, ApprovedWithDifference})
  }

  /** What doing it leaves, and that it leaves the rest alone. */
  ghost predicate Did(s: State, s': State, w: Work) {
    match w
    case OpenShift(day, shift) =>
      s' == s.(shifts := s'.shifts) && OneShift(s, s', shift) && s'.shifts[shift] == Shift(day, Open)
    case SetDay(day, target) =>
      s' == s.(days := s'.days) && s'.days - {day} == s.days - {day} && day in s'.days && s'.days[day] == target
    case CloseShift(shift) => s' == s.(shifts := s'.shifts) && OneShift(s, s', shift) && ShiftIs(s', shift, Closed)
    case SubmitCash(shift, c, raises) =>
      && s' == s.(submissions := s'.submissions, exceptions := s'.exceptions)
      && c in s'.submissions && s'.submissions[c] == shift && s'.submissions - {c} == s.submissions - {c}
      && (if raises.None? then s'.exceptions == s.exceptions
          else raises.value in s'.exceptions && s'.exceptions[raises.value] == Exception(shift, false)
               && s'.exceptions - {raises.value} == s.exceptions)
    case ConfirmCash(_, c, verdict) =>
      && s' == s.(receipts := s'.receipts) && s'.receipts - {c} == s.receipts - {c}
      && c in s'.receipts && s'.receipts[c] == verdict
    case ApproveShift(shift) => s' == s.(shifts := s'.shifts) && OneShift(s, s', shift) && ShiftIs(s', shift, Approved)
  }

  /** No other shift changed, and this one stays on its day. */
  ghost predicate OneShift(s: State, s': State, shift: nat) {
    && shift in s'.shifts && s'.shifts - {shift} == s.shifts - {shift}
    && (shift in s.shifts ==> s'.shifts[shift].day == s.shifts[shift].day)
  }

  function With(s: State, tx: Tx, job: Job): State {
    s.(jobs := s.jobs[tx := job])
  }

  lemma NotInTheWay(s: State, tx: Tx, w: Work, pc: Pc)
    requires Unhindered(s, tx, w)
    ensures Free(With(s, tx, Job(w, pc)), tx, w)
  {
    var s' := With(s, tx, Job(w, pc));
    forall other | other in s'.jobs && other != tx && !s'.jobs[other].pc.Waiting?
      ensures !Conflict(w, s'.jobs[other].work)
    {
      assert s'.jobs[other] == s.jobs[other];
    }
  }

  /** The statements that are left when nobody else moves. */
  function Finish(s: State, tx: Tx, n: nat): State
    decreases n
  {
    if n == 0 then s else Finish(Apply(s, Advance(tx)), tx, n - 1)
  }

  lemma Dropped(s: State, tx: Tx, job: Job)
    requires tx !in s.jobs
    ensures Drop(With(s, tx, job), tx) == s
  {
    assert s.jobs[tx := job] - {tx} == s.jobs;
  }

  lemma {:induction false} NothingLeft(s: State, tx: Tx, n: nat)
    requires tx !in s.jobs
    ensures Finish(s, tx, n) == s
  {
    if n > 0 {
      NothingLeft(s, tx, n - 1);
    }
  }

  lemma Commits(s: State, tx: Tx, w: Work)
    requires tx !in s.jobs
    ensures Apply(With(s, tx, Job(w, Ready)), Advance(tx)) == if WriteAllowed(s, w) then Write(s, w) else s
  {
    Dropped(s, tx, Job(w, Ready));
    WritesAlike(s, w, With(s, tx, Job(w, Ready)).jobs);
    assert Write(s, w).jobs == s.jobs;
  }

  lemma WritesAlike(s: State, w: Work, jobs: map<Tx, Job>)
    ensures WriteAllowed(s.(jobs := jobs), w) == WriteAllowed(s, w)
    ensures Write(s.(jobs := jobs), w) == Write(s, w).(jobs := jobs)
  {
  }

  /** What is checked after the lock is granted. */
  predicate Checks(s: State, w: Work) {
    && (w.SetDay? && w.target.DayClosed? ==> NoOpenShift(s, w.day))
    && (w.ApproveShift? ==> NoOpenException(s, w.shift) && NothingAwaiting(s, w.shift))
  }

  lemma FromReady(s: State, tx: Tx, w: Work, n: nat)
    requires tx !in s.jobs
    ensures Finish(With(s, tx, Job(w, Ready)), tx, n + 1) == if WriteAllowed(s, w) then Write(s, w) else s
  {
    Commits(s, tx, w);
    NothingLeft(if WriteAllowed(s, w) then Write(s, w) else s, tx, n);
  }

  /** One check after the lock, as a move of the job. */
  lemma Moves(s: State, tx: Tx, job: Job)
    requires tx !in s.jobs && !job.pc.Ready?
    ensures var v := Check(With(s, tx, job), tx, job);
      Apply(With(s, tx, job), Advance(tx)) == match v
        case Waits => With(s, tx, job)
        case Refused => s
        case GoesOn(pc) => With(s, tx, job.(pc := pc))
  {
    Dropped(s, tx, job);
    assert forall pc :: With(s, tx, job).jobs[tx := job.(pc := pc)] == s.jobs[tx := job.(pc := pc)];
  }

  lemma FromTheLock(s: State, tx: Tx, w: Work)
    requires tx !in s.jobs
    ensures Finish(With(s, tx, Job(w, Locked)), tx, 3)
         == if Checks(s, w) && WriteAllowed(s, w) then Write(s, w) else s
  {
    Moves(s, tx, Job(w, Locked));
    if w.ApproveShift? && NoOpenException(s, w.shift) {
      FromClear(s, tx, w);
    } else {
      FromReady(s, tx, w, 1);
      NothingLeft(s, tx, 2);
    }
  }

  lemma FromClear(s: State, tx: Tx, w: Work)
    requires tx !in s.jobs && w.ApproveShift?
    ensures Finish(With(s, tx, Job(w, ExceptionsClear)), tx, 2)
         == if NothingAwaiting(s, w.shift) && WriteAllowed(s, w) then Write(s, w) else s
  {
    Moves(s, tx, Job(w, ExceptionsClear));
    FromReady(s, tx, w, 0);
    NothingLeft(s, tx, 1);
  }

  lemma GoesThrough(s: State, tx: Tx, w: Work)
    requires Unhindered(s, tx, w)
    ensures Finish(With(s, tx, Job(w, Waiting)), tx, 4)
         == if StatusAllows(s, w) && Checks(s, w) && WriteAllowed(s, w) then Write(s, w) else s
  {
    NotInTheWay(s, tx, w, Waiting);
    Moves(s, tx, Job(w, Waiting));
    FromTheLock(s, tx, w);
    NothingLeft(s, tx, 3);
  }

  lemma AcceptsIs(s: State, w: Work)
    ensures Accepts(s, w) <==> StatusAllows(s, w) && Checks(s, w) && WriteAllowed(s, w)
  {
  }

  lemma DidIs(s: State, w: Work)
    requires Accepts(s, w)
    ensures Did(s, Write(s, w), w)
  {
  }

  /** A transaction that nobody hinders does its work if and only if the tables accept it, and otherwise changes
      nothing. */
  lemma DoneIffAccepted(s: State, tx: Tx, w: Work)
    requires Unhindered(s, tx, w)
    ensures var s' := Finish(Apply(s, Begin(tx, w)), tx, 4);
      if Accepts(s, w) then Did(s, s', w) else s' == s
  {
    GoesThrough(s, tx, w);
    AcceptsIs(s, w);
    if Accepts(s, w) {
      DidIs(s, w);
    }
  }

  /** A day is opened once, and an exception is resolved for good. */
  lemma OpenedAndResolved(s: State, day: nat, x: nat)
    ensures var s' := Apply(s, OpenDay(day));
      day in s'.days && s'.days[day] == if day in s.days then s.days[day] else DayOpen
    ensures var s' := Apply(s, Resolve(x));
      x in s.exceptions ==> x in s'.exceptions && s'.exceptions[x] == Exception(s.exceptions[x].shift, true)
  {
  }
}

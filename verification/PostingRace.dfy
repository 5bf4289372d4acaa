/** Posting to the journal while a period is being locked.

A posting reads the period's status without locking its row, and inserts and commits later.  A lock is one UPDATE of
that row.  Neither waits for the other.
 */
module PostingRace {
  import opened Journal

  /** `posted` lists the periods of the committed entries; `inFlight` the postings past their status check. */
  datatype State = State(periods: map<nat, PeriodStatus>, inFlight: map<nat, nat>, posted: seq<nat>)

  datatype Step =
    | Create(period: nat)
    | Change(period: nat, to: PeriodStatus)
    | Resolve(tx: nat, period: nat, allowClosed: bool)
    | Commit(tx: nat)
    | Abort(tx: nat)

  const Start := State(map[], map[], [])

  predicate Admits(status: PeriodStatus, allowClosed: bool) {
    !status.Locked? && (status.Closed? ==> allowClosed)
  }

  function Exec(s: State, step: Step): State {
    match step
    case Create(p) => if p in s.periods then s else s.(periods := s.periods[p := Open])
    case Change(p, to) => if p in s.periods && Edge(s.periods[p], to) then s.(periods := s.periods[p := to]) else s
    case Resolve(tx, p, allowClosed) =>
      if tx !in s.inFlight && p in s.periods && Admits(s.periods[p], allowClosed)
      then s.(inFlight := s.inFlight[tx := p]) else s
    case Commit(tx) =>
      if tx in s.inFlight then s.(posted := s.posted + [s.inFlight[tx]], inFlight := s.inFlight - {tx}) else s
    case Abort(tx) => s.(inFlight := s.inFlight - {tx})
  }

  function RunSteps(s: State, steps: seq<Step>): State
    decreases |steps|
  {
    if steps == [] then s else RunSteps(Exec(s, steps[0]), steps[1..])
  }

  function Count(posted: seq<nat>, p: nat): nat {
    if posted == [] then 0 else Count(posted[..|posted| - 1], p) + if posted[|posted| - 1] == p then 1 else 0
  }

  /** The transaction's next ending is a commit. */
  predicate Lands(steps: seq<Step>, tx: nat) {
    steps != [] && (steps[0] == Commit(tx) || (steps[0] != Abort(tx) && Lands(steps[1..], tx)))
  }

  predicate IsLocked(s: State, p: nat) {
    p in s.periods && s.periods[p].Locked?
  }

  /** Some posting that passed its check on the period before it was locked still commits. */
  predicate LandsLate(s: State, steps: seq<Step>, p: nat) {
    exists tx :: tx in s.inFlight && s.inFlight[tx] == p && Lands(steps, tx)
  }

  predicate LandsNow(s: State, step: Step, p: nat) {
    step.Commit? && step.tx in s.inFlight && s.inFlight[step.tx] == p
  }

  lemma StepLocked(s: State, step: Step, p: nat)
    requires IsLocked(s, p)
    ensures var s' := Exec(s, step);
      && IsLocked(s', p)
      && (forall tx :: tx in s'.inFlight && s'.inFlight[tx] == p ==> tx in s.inFlight && s.inFlight[tx] == p)
      && Count(s'.posted, p) >= Count(s.posted, p)
      && (Count(s'.posted, p) > Count(s.posted, p) <==> LandsNow(s, step, p))
  {
    if step.Commit? && step.tx in s.inFlight {
      assert (s.posted + [s.inFlight[step.tx]])[..|s.posted|] == s.posted;
    }
  }

  lemma {:induction false} CountRises(s: State, steps: seq<Step>, p: nat)
    requires IsLocked(s, p)
    ensures Count(RunSteps(s, steps).posted, p) >= Count(s.posted, p)
    decreases |steps|
  {
    if steps != [] {
      StepLocked(s, steps[0], p);
      CountRises(Exec(s, steps[0]), steps[1..], p);
    }
  }

  /** Once a period is locked its entries are final if and only if no posting that was past its check by then
      commits. */
  lemma {:induction false} LockedIsFinal(s: State, steps: seq<Step>, p: nat)
    requires IsLocked(s, p)
    ensures Count(RunSteps(s, steps).posted, p) == Count(s.posted, p) <==> !LandsLate(s, steps, p)
    decreases |steps|
  {
    if steps != [] {
      var s', rest := Exec(s, steps[0]), steps[1..];
      StepLocked(s, steps[0], p);
      LockedIsFinal(s', rest, p);
      CountRises(s', rest, p);
      StillLands(s, steps, p);
    }
  }

  /** What lands late after a step, landed late before it; the step itself is the only other way. */
  lemma StillLands(s: State, steps: seq<Step>, p: nat)
    requires IsLocked(s, p) && steps != []
    ensures var first := steps[0];
      LandsLate(s, steps, p) <==> LandsNow(s, first, p) || LandsLate(Exec(s, first), steps[1..], p)
  {
    var s' := Exec(s, steps[0]);
    StepLocked(s, steps[0], p);
    if tx :| tx in s.inFlight && s.inFlight[tx] == p && Lands(steps, tx) {
      if steps[0] != Commit(tx) {
        assert tx in s'.inFlight && s'.inFlight[tx] == p;
      }
    }
    if tx :| tx in s'.inFlight && s'.inFlight[tx] == p && Lands(steps[1..], tx) {
      assert steps[0] != Abort(tx);
    }
  }

  /** The postings past their check that commit later, each once. */
  function Late(s: State, steps: seq<Step>, p: nat): set<nat> {
    set tx | tx in s.inFlight && s.inFlight[tx] == p && Lands(steps, tx)
  }

  lemma LateStep(s: State, steps: seq<Step>, p: nat)
    requires IsLocked(s, p) && steps != []
    ensures var later := Late(Exec(s, steps[0]), steps[1..], p);
      if LandsNow(s, steps[0], p) then steps[0].tx !in later && Late(s, steps, p) == later + {steps[0].tx}
      else Late(s, steps, p) == later
  {
    var s', later := Exec(s, steps[0]), Late(Exec(s, steps[0]), steps[1..], p);
    StepLocked(s, steps[0], p);
    forall tx | tx in Late(s, steps, p) && steps[0] != Commit(tx) ensures tx in later {
      assert tx in s'.inFlight && s'.inFlight[tx] == p;
    }
    forall tx | tx in later ensures tx in Late(s, steps, p) && steps[0] != Commit(tx) {
      assert tx in s.inFlight && steps[0] != Abort(tx);
    }
  }

  lemma CommitCounts(s: State, step: Step, p: nat)
    ensures Count(Exec(s, step).posted, p) == Count(s.posted, p) + if LandsNow(s, step, p) then 1 else 0
  {
    if step.Commit? && step.tx in s.inFlight {
      assert (s.posted + [s.inFlight[step.tx]])[..|s.posted|] == s.posted;
    }
  }

  /** A locked period gains exactly one entry for each posting that was past its check at the lock and commits. */
  lemma {:induction false} OneEntryEach(s: State, steps: seq<Step>, p: nat)
    requires IsLocked(s, p)
    ensures Count(RunSteps(s, steps).posted, p) == Count(s.posted, p) + |Late(s, steps, p)|
    decreases |steps|
  {
    if steps == [] {
      assert Late(s, steps, p) == {};
    } else {
      StepLocked(s, steps[0], p);
      CommitCounts(s, steps[0], p);
      LateStep(s, steps, p);
      OneEntryEach(Exec(s, steps[0]), steps[1..], p);
    }
  }

  /** A period's entries are final from the moment it is locked if and only if no posting to it is in flight then. */
  lemma FinalAtTheLock(s: State, p: nat)
    requires IsLocked(s, p)
    ensures (forall steps :: Count(RunSteps(s, steps).posted, p) == Count(s.posted, p)) <==> p !in s.inFlight.Values
  {
    if p in s.inFlight.Values {
      var tx :| tx in s.inFlight && s.inFlight[tx] == p;
      assert Lands([Commit(tx)], tx);
      LockedIsFinal(s, [Commit(tx)], p);
    } else {
      forall steps ensures Count(RunSteps(s, steps).posted, p) == Count(s.posted, p) {
        LockedIsFinal(s, steps, p);
      }
    }
  }

  /** A posting resolves, the period is closed and locked, the posting commits: an entry in a locked period. */
  lemma EntryAfterLock()
    ensures var before := [Create(0), Resolve(1, 0, false), Change(0, Closing), Change(0, Closed), Change(0, Locked)];
      var s := RunSteps(Start, before);
      IsLocked(s, 0) && s.posted == [] && RunSteps(s, [Commit(1)]).posted == [0]
  {
    var s1 := State(map[0 := Open], map[1 := 0], []);
    var s2, s3, s4 := s1.(periods := map[0 := Closing]), s1.(periods := map[0 := Closed]),
      s1.(periods := map[0 := Locked]);
    assert Exec(Exec(Start, Create(0)), Resolve(1, 0, false)) == s1;
    assert Exec(s1, Change(0, Closing)) == s2 && Exec(s2, Change(0, Closed)) == s3 && Exec(s3, Change(0, Locked)) == s4;
    RunCons(s3, Change(0, Locked), []);
    RunCons(s2, Change(0, Closed), [Change(0, Locked)]);
    RunCons(s1, Change(0, Closing), [Change(0, Closed), Change(0, Locked)]);
    RunCons(Exec(Start, Create(0)), Resolve(1, 0, false), [Change(0, Closing), Change(0, Closed), Change(0, Locked)]);
    RunCons(Start, Create(0), [Resolve(1, 0, false), Change(0, Closing), Change(0, Closed), Change(0, Locked)]);
    RunCons(s4, Commit(1), []);
  }

  lemma RunCons(s: State, step: Step, rest: seq<Step>)
    ensures RunSteps(s, [step] + rest) == RunSteps(Exec(s, step), rest)
  {
    assert ([step] + rest)[1..] == rest;
  }
}

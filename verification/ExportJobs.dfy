/** The export-job queue: claimed by workers, reclaimed when a worker goes silent.

A step may come from any worker at any time, including one whose job was reclaimed long ago: the
guards are all that protects a job.
 */
module ExportJobs {
  import opened Wrappers

  datatype Status = Queued | Running | Completed | Failed

  datatype Job = Job(status: Status, attempts: nat, createdAt: nat, startedAt: Option<nat>, completedAt: Option<nat>,
                     result: Option<nat>, error: Option<string>)

  type Jobs = map<nat, Job>

  const STOPPED := "export worker stopped before this job finished (retry limit reached)"

  predicate Terminal(j: Job) {
    j.status.Completed? || j.status.Failed?
  }

  function NewJob(now: nat): Job {
    Job(Queued, 0, now, None, None, None, None)
  }

  function Claimed(j: Job, now: nat): Job {
    j.(status := Running, startedAt := Some(now), attempts := j.attempts + 1)
  }

  predicate Stale(j: Job, before: nat) {
    j.status.Running? && j.startedAt.Some? && j.startedAt.value < before
  }

  /** Fail a stale job that used up its attempts, queue any other stale one again. */
  function Reclaimed(j: Job, before: nat, max: nat, now: nat): Job {
    if !Stale(j, before) then j
    else if j.attempts >= max then j.(status := Failed, completedAt := Some(now), error := Some(STOPPED))
    else j.(status := Queued, startedAt := None, completedAt := None)
  }

  function ReclaimAll(jobs: Jobs, before: nat, max: nat, now: nat): Jobs {
    map id | id in jobs :: Reclaimed(jobs[id], before, max, now)
  }

  function WithResult(j: Job, result: nat, now: nat): Job {
    j.(status := Completed, result := Some(result), error := None, completedAt := Some(now))
  }

  function CompletedFromQueue(j: Job, result: nat, now: nat): Job {
    WithResult(j, result, now).(startedAt := if j.startedAt.Some? then j.startedAt else Some(now))
  }

  function WithFailure(j: Job, reason: string, now: nat): Job {
    j.(status := Failed, error := Some(reason), completedAt := Some(now))
  }

  datatype Step =
    | Enqueue(id: nat, now: nat)
    | Claim(id: nat, now: nat)
    | Reclaim(before: nat, now: nat)
    | Complete(id: nat, result: nat, now: nat)
    | CompleteQueued(id: nat, result: nat, now: nat)
    | Fail(id: nat, reason: string, now: nat)

  function Apply(jobs: Jobs, step: Step, max: nat): Jobs {
    match step
    case Enqueue(id, now) => if id in jobs then jobs else jobs[id := NewJob(now)]
    case Claim(id, now) => if id in jobs && jobs[id].status.Queued? then jobs[id := Claimed(jobs[id], now)] else jobs
    case Reclaim(before, now) => ReclaimAll(jobs, before, max, now)
    case Complete(id, result, now) =>
      if id in jobs && jobs[id].status.Running? then jobs[id := WithResult(jobs[id], result, now)] else jobs
    case CompleteQueued(id, result, now) =>
      if id in jobs && jobs[id].status.Queued? then jobs[id := CompletedFromQueue(jobs[id], result, now)] else jobs
    case Fail(id, reason, now) =>
      if id in jobs && jobs[id].status.Running? then jobs[id := WithFailure(jobs[id], reason, now)] else jobs
  }

  function Run(jobs: Jobs, steps: seq<Step>, max: nat): Jobs {
    if steps == [] then jobs else Apply(Run(jobs, steps[..|steps| - 1], max), steps[|steps| - 1], max)
  }

  // ---- What every step keeps ----

  predicate JobOk(j: Job, max: nat) {
    && j.attempts <= max
    && (j.status.Queued? ==> j.attempts < max)
    && (j.status.Running? ==> j.attempts > 0 && j.startedAt.Some?)
    && (Terminal(j) <==> j.completedAt.Some?)
    && (j.status.Completed? <==> j.result.Some?)
    && (j.status.Queued? ==> j.startedAt.None?) && (j.status.Completed? ==> j.startedAt.Some?)
    && (j.status.Failed? <==> j.error.Some?)
  }

  ghost predicate Inv(jobs: Jobs, max: nat) {
    forall id :: id in jobs ==> JobOk(jobs[id], max)
  }

  /** Writes a job still has ahead of it, at most. */
  function Budget(j: Job, max: nat): int {
    match j.status
    case Queued => 2 * (max - j.attempts) + 1
    case Running => 2 * (max - j.attempts) + 2
    case _ => 0
  }

  /** A step keeps every job in order, leaves terminal jobs alone, and costs each job it changes. */
  lemma StepKeeps(jobs: Jobs, step: Step, max: nat)
    requires max >= 1 && Inv(jobs, max)
    ensures var jobs' := Apply(jobs, step, max);
      && Inv(jobs', max)
      && forall id :: id in jobs ==>
           && id in jobs'
           && (Terminal(jobs[id]) ==> jobs'[id] == jobs[id])
           && 0 <= Budget(jobs'[id], max)
           && (jobs'[id] != jobs[id] ==> Budget(jobs'[id], max) < Budget(jobs[id], max))
  {
  }

  lemma {:induction false} RunKeeps(steps: seq<Step>, max: nat)
    requires max >= 1
    ensures Inv(Run(map[], steps, max), max)
  {
    if steps != [] {
      RunKeeps(steps[..|steps| - 1], max);
      StepKeeps(Run(map[], steps[..|steps| - 1], max), steps[|steps| - 1], max);
    }
  }

  /** How many steps of a run wrote the job, its insertion included. */
  function Writes(steps: seq<Step>, max: nat, id: nat): nat {
    if steps == [] then 0
    else
      var before, after := Run(map[], steps[..|steps| - 1], max), Run(map[], steps, max);
      Writes(steps[..|steps| - 1], max, id) + if id in after && (id !in before || before[id] != after[id]) then 1 else 0
  }

  function TerminalWrites(steps: seq<Step>, max: nat, id: nat): nat {
    if steps == [] then 0
    else
      var before, after := Run(map[], steps[..|steps| - 1], max), Run(map[], steps, max);
      TerminalWrites(steps[..|steps| - 1], max, id)
      + if id in after && Terminal(after[id]) && (id !in before || before[id] != after[id]) then 1 else 0
  }

  lemma {:induction false} WritesBounded(steps: seq<Step>, max: nat, id: nat)
    requires max >= 1
    ensures var jobs := Run(map[], steps, max);
      if id in jobs
      then Writes(steps, max, id) + Budget(jobs[id], max) <= 2 * max + 2
        && TerminalWrites(steps, max, id) == if Terminal(jobs[id]) then 1 else 0
      else Writes(steps, max, id) == 0 && TerminalWrites(steps, max, id) == 0
  {
    if steps != [] {
      var before := steps[..|steps| - 1];
      RunKeeps(before, max);
      StepKeeps(Run(map[], before, max), steps[|steps| - 1], max);
      WritesBounded(before, max, id);
    }
  }

  /** For every run, with any number of workers and zombies: attempts stay within the cap, a queued job has
      attempts left, a terminal job got exactly one terminal write, and no job is written more than 2·max + 2 times. */
  lemma QueueSafety(steps: seq<Step>, max: nat, id: nat)
    requires max >= 1 && id in Run(map[], steps, max)
    ensures var j := Run(map[], steps, max)[id];
      && j.attempts <= max && (j.status.Queued? ==> j.attempts < max)
      && TerminalWrites(steps, max, id) == (if Terminal(j) then 1 else 0)
      && Writes(steps, max, id) <= 2 * max + 2
  {
    RunKeeps(steps, max);
    WritesBounded(steps, max, id);
    assert JobOk(Run(map[], steps, max)[id], max);
  }

  /** A terminal job never changes again. */
  lemma {:induction false} TerminalForever(steps: seq<Step>, more: seq<Step>, max: nat, id: nat)
    requires max >= 1
    requires var jobs := Run(map[], steps, max); id in jobs && Terminal(jobs[id])
    ensures var jobs := Run(map[], steps + more, max); id in jobs && jobs[id] == Run(map[], steps, max)[id]
  {
    if more == [] {
      assert steps + more == steps;
    } else {
      var before, last := steps + more[..|more| - 1], more[|more| - 1];
      TerminalForever(steps, more[..|more| - 1], max, id);
      RunKeeps(before, max);
      RunSnoc(before, last, max);
      assert steps + more == before + [last];
      TerminalStep(Run(map[], before, max), last, max, id);
    }
  }

  lemma RunSnoc(steps: seq<Step>, step: Step, max: nat)
    ensures Run(map[], steps + [step], max) == Apply(Run(map[], steps, max), step, max)
  {
    assert (steps + [step])[..|steps|] == steps;
  }

  lemma TerminalStep(jobs: Jobs, step: Step, max: nat, id: nat)
    requires max >= 1 && Inv(jobs, max) && id in jobs && Terminal(jobs[id])
    ensures var jobs' := Apply(jobs, step, max); id in jobs' && jobs'[id] == jobs[id]
  {
    StepKeeps(jobs, step, max);
  }

  // ---- What each step writes ----

  /** The worker has been silent since before the cut-off. */
  predicate Silent(j: Job, step: Step) {
    step.Reclaim? && j.startedAt.Some? && j.startedAt.value < step.before
  }

  /** A job appears queued when it is enqueued; it runs from a claim, which counts an attempt and notes the time, until
      it is completed, fails, or is reclaimed from a silent worker. */
  lemma LifeOfJob(jobs: Jobs, step: Step, max: nat, id: nat)
    ensures var jobs' := Apply(jobs, step, max);
      && (id in jobs' <==> id in jobs || (step.Enqueue? && step.id == id))
      && (id !in jobs && id in jobs' ==> jobs'[id] == Job(Queued, 0, step.now, None, None, None, None))
      && (id in jobs ==>
            var j, k := jobs[id], jobs'[id];
            var claimed := step.Claim? && step.id == id && j.status.Queued?;
            var ended := (step.Complete? || step.Fail?) && step.id == id;
            && (k.status.Running? <==> claimed || (j.status.Running? && !ended && !Silent(j, step)))
            && k.attempts == j.attempts + (if claimed then 1 else 0) && k.createdAt == j.createdAt
            && (claimed ==> k.startedAt == Some(step.now)))
  {
  }

  /** Over every run: no job is stuck with a silent worker, for reclaiming with a later cut-off queues or fails it. */
  lemma NoneStuck(steps: seq<Step>, before: nat, now: nat, max: nat, id: nat)
    requires max >= 1 && id in Run(map[], steps, max)
    ensures var j := Run(map[], steps, max)[id];
      && (j.status.Running? ==> j.startedAt.Some?)
      && (j.status.Running? && j.startedAt.value < before ==>
            Run(map[], steps + [Reclaim(before, now)], max)[id].status == if j.attempts < max then Queued else Failed)
  {
    RunKeeps(steps, max);
    RunSnoc(steps, Reclaim(before, now), max);
    assert JobOk(Run(map[], steps, max)[id], max);
  }

  /** Reclaiming touches exactly the jobs running since before the cut-off: those out of attempts fail, the others are
      queued again with the attempts they had. */
  lemma ReclaimIs(jobs: Jobs, before: nat, now: nat, max: nat, id: nat)
    requires id in jobs
    ensures var j, k := jobs[id], Apply(jobs, Reclaim(before, now), max)[id];
      var silent := j.status.Running? && j.startedAt.Some? && j.startedAt.value < before;
      && (k == j <==> !silent)
      && (silent && j.attempts >= max ==> k.status.Failed? && k.completedAt == Some(now) && k.error == Some(STOPPED))
      && (silent && j.attempts < max ==> k.status.Queued? && k.startedAt.None? && k.completedAt.None?)
      && k.attempts == j.attempts && k.createdAt == j.createdAt && k.result == j.result
  {
  }

  /** A completed job keeps the result it was completed with, and a failed one its reason, whatever else happens. */
  lemma OutcomeIsKept(steps: seq<Step>, step: Step, more: seq<Step>, max: nat, id: nat)
    requires max >= 1 && id in Run(map[], steps, max)
    ensures var j, k := Run(map[], steps, max)[id], Run(map[], steps + [step] + more, max);
      && (step.Complete? && step.id == id && j.status.Running? ==>
            id in k && k[id] == j.(status := Completed, result := Some(step.result), completedAt := Some(step.now)))
      && (step.CompleteQueued? && step.id == id && j.status.Queued? ==>
            id in k && k[id] == j.(status := Completed, result := Some(step.result), startedAt := Some(step.now),
                                   completedAt := Some(step.now)))
      && (step.Fail? && step.id == id && j.status.Running? ==>
            id in k && k[id] == j.(status := Failed, error := Some(step.reason), completedAt := Some(step.now)))
  {
    RunSnoc(steps, step, max);
    RunKeeps(steps, max);
    assert JobOk(Run(map[], steps, max)[id], max);
    if id in Run(map[], steps + [step], max) && Terminal(Run(map[], steps + [step], max)[id]) {
      TerminalForever(steps + [step], more, max, id);
    }
  }

  // ---- The repository ----

  class ExportQueue {
    var jobs: Jobs

    constructor ()
      ensures jobs == map[]
    {
      jobs := map[];
    }

    method Enqueue(id: nat, now: nat)
      requires id !in jobs
      modifies this
      ensures jobs == Apply(old(jobs), Step.Enqueue(id, now), 0)
    {
      jobs := jobs[id := NewJob(now)];
    }

    /** Claims the oldest queued job, if there is one. */
    method ClaimNext(now: nat) returns (claimed: Option<nat>)
      modifies this
      ensures claimed.None? ==> jobs == old(jobs) && forall id :: id in jobs ==> !jobs[id].status.Queued?
      ensures claimed.Some? ==>
        && claimed.value in old(jobs) && old(jobs)[claimed.value].status.Queued?
        && (forall id :: id in old(jobs) && old(jobs)[id].status.Queued? ==>
          old(jobs)[claimed.value].createdAt <= old(jobs)[id].createdAt)
        && jobs == Apply(old(jobs), Claim(claimed.value, now), 0)
    {
      claimed := None;
      var left := jobs.Keys;
      while left != {}
        invariant left <= jobs.Keys && jobs == old(jobs)
        invariant claimed.Some? ==> claimed.value in jobs && jobs[claimed.value].status.Queued?
        invariant forall id :: id in jobs && id !in left && jobs[id].status.Queued? ==>
          claimed.Some? && jobs[claimed.value].createdAt <= jobs[id].createdAt
        decreases |left|
      {
        var id :| id in left;
        left := left - {id};
        if jobs[id].status.Queued? && (claimed.None? || jobs[id].createdAt < jobs[claimed.value].createdAt) {
          claimed := Some(id);
        }
      }
      if claimed.Some? {
        jobs := jobs[claimed.value := Claimed(jobs[claimed.value], now)];
      }
    }

    method ReclaimStale(before: nat, max: nat, now: nat)
      modifies this
      ensures jobs == Apply(old(jobs), Reclaim(before, now), max)
    {
      var left := jobs.Keys;
      while left != {}
        invariant left <= jobs.Keys && jobs.Keys == old(jobs).Keys
        invariant forall id :: id in jobs ==>
          jobs[id] == if id in left then old(jobs)[id] else Reclaimed(old(jobs)[id], before, max, now)
        decreases |left|
      {
        var id :| id in left;
        left := left - {id};
        var j := jobs[id];
        if j.status.Running? && j.startedAt.Some? && j.startedAt.value < before {
          if j.attempts >= max {
            jobs := jobs[id := j.(status := Failed, completedAt := Some(now), error := Some(STOPPED))];
          } else {
            jobs := jobs[id := j.(status := Queued, startedAt := None, completedAt := None)];
          }
        }
      }
    }

    method Complete(id: nat, result: nat, now: nat) returns (found: bool)
      modifies this
      ensures found <==> id in old(jobs) && old(jobs)[id].status.Running?
      ensures jobs == Apply(old(jobs), Step.Complete(id, result, now), 0)
    {
      found := id in jobs && jobs[id].status.Running?;
      if found {
        jobs := jobs[id :=
          jobs[id].(status := Completed, result := Some(result), error := None, completedAt := Some(now))];
      }
    }

    method CompleteQueued(id: nat, result: nat, now: nat) returns (found: bool)
      modifies this
      ensures found <==> id in old(jobs) && old(jobs)[id].status.Queued?
      ensures jobs == Apply(old(jobs), Step.CompleteQueued(id, result, now), 0)
    {
      found := id in jobs && jobs[id].status.Queued?;
      if found {
        var started := if jobs[id].startedAt.Some? then jobs[id].startedAt else Some(now);
        jobs := jobs[id :=
          jobs[id].(status := Completed, result := Some(result), error := None, startedAt := started,
            completedAt := Some(now))];
      }
    }

    method Fail(id: nat, reason: string, now: nat) returns (found: bool)
      modifies this
      ensures found <==> id in old(jobs) && old(jobs)[id].status.Running?
      ensures jobs == Apply(old(jobs), Step.Fail(id, reason, now), 0)
    {
      found := id in jobs && jobs[id].status.Running?;
      if found {
        jobs := jobs[id := jobs[id].(status := Failed, error := Some(reason), completedAt := Some(now))];
      }
    }
  }
}

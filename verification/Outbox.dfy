/** Concurrent publishers over one outbox, with crashes, and the notifications their handlers create.

A publisher locks a batch of pending rows that no other has locked, dispatches them one by one, and
commits the outcomes.  A crash loses the batch's bookkeeping but not what the handlers already did.
Besides any other handlers, each event reaches the notification handler, which creates one
notification per target and stops at the first that fails.
 */
module Outbox {
  import opened OutboxDrain
  import opened Wrappers

  type EventId = nat
  type PublisherId = nat

  datatype Target = Target(user: Option<nat>, content: nat)

  /** Tenant and targets of each event; a platform event has no tenant and no targets. */
  datatype Event = Event(tenant: nat, targets: seq<Target>)

  type Catalogue = EventId -> Event

  /** Notifications are unique per tenant, source event and user. */
  datatype Key = Key(tenant: nat, event: EventId, user: Option<nat>)

  /** One run of the handlers: how many targets the notification handler got through, and whether each
      other handler succeeded. */
  datatype Dispatch = Dispatch(event: EventId, reached: nat, others: seq<bool>)

  /** Locked rows, the attempts read with them, and the outcomes of those dispatched so far. */
  datatype Batch = Batch(ids: seq<EventId>, attempts: seq<nat>, outcomes: seq<bool>)

  datatype State = State(rows: map<EventId, OutRow>, batches: map<PublisherId, Batch>,
                         log: seq<Dispatch>, notifications: map<Key, nat>)

  const Start := State(map[], map[], [], map[])

  datatype Step =
    | Append(event: EventId)
    | Fetch(publisher: PublisherId, ids: seq<EventId>)
    | Deliver(publisher: PublisherId, reached: nat, others: seq<bool>)
    | Commit(publisher: PublisherId)
    | Crash(publisher: PublisherId)

  // ---- Notifications ----

  function KeyOf(events: Catalogue, e: EventId, t: Target): Key {
    Key(events(e).tenant, e, t.user)
  }

  /** Insert, or leave what is there. */
  function CreateFromEvent(notes: map<Key, nat>, key: Key, content: nat): map<Key, nat> {
    if key in notes then notes else notes[key := content]
  }

  /** The handler's loop, cut off after `reached` targets. */
  function Handle(events: Catalogue, notes: map<Key, nat>, e: EventId, reached: nat): map<Key, nat>
    requires reached <= |events(e).targets|
  {
    if reached == 0 then notes
    else
      var t := events(e).targets[reached - 1];
      CreateFromEvent(Handle(events, notes, e, reached - 1), KeyOf(events, e, t), t.content)
  }

  // ---- Steps ----

  predicate Locked(s: State, e: EventId) {
    exists p :: p in s.batches && e in s.batches[p].ids
  }

  predicate Fetchable(s: State, ids: seq<EventId>) {
    && (forall i :: 0 <= i < |ids| ==> ids[i] in s.rows && Pending(s.rows[ids[i]]) && !Locked(s, ids[i]))
    && (forall i, j :: 0 <= i < j < |ids| ==> ids[i] != ids[j])
  }

  predicate AllTrue(bs: seq<bool>) {
    forall i :: 0 <= i < |bs| ==> bs[i]
  }

  predicate Succeeded(events: Catalogue, d: Dispatch) {
    AllTrue(d.others) && d.reached == |events(d.event).targets|
  }

  function ReadAttempts(rows: map<EventId, OutRow>, ids: seq<EventId>): (attempts: seq<nat>)
    requires forall i :: 0 <= i < |ids| ==> ids[i] in rows
    ensures |attempts| == |ids| && forall i :: 0 <= i < |ids| ==> attempts[i] == rows[ids[i]].attempts
  {
    seq(|ids|, i requires 0 <= i < |ids| => rows[ids[i]].attempts)
  }

  /** What is written for one row: a failure writes the attempts read earlier, plus one. */
  function Written(r: OutRow, read: nat, ok: bool): OutRow {
    if ok then r.(published := true)
    else
      var f := ClassifyFailure(0, read);
      r.(attempts := f.attempts, failed := f.deadLetter)
  }

  /** The rows after a batch's outcomes are written. */
  function Settle(rows: map<EventId, OutRow>, b: Batch): map<EventId, OutRow>
    requires |b.outcomes| == |b.ids| == |b.attempts|
  {
    map e | e in rows :: if e in b.ids
      then Written(rows[e], b.attempts[IndexOf(b.ids, e)], b.outcomes[IndexOf(b.ids, e)]) else rows[e]
  }

  function IndexOf(ids: seq<EventId>, e: EventId): (i: nat)
    requires e in ids
    ensures i < |ids| && ids[i] == e
  {
    if ids[0] == e then 0 else 1 + IndexOf(ids[1..], e)
  }

  /** A step whose guard fails changes nothing. */
  function Apply(events: Catalogue, s: State, step: Step): State {
    match step
    case Append(e) => if e in s.rows then s else s.(rows := s.rows[e := OutRow(0, false, false)])
    case Fetch(p, ids) =>
      if p !in s.batches && Fetchable(s, ids)
        then s.(batches := s.batches[p := Batch(ids, ReadAttempts(s.rows, ids), [])]) else s
    case Deliver(p, reached, others) =>
      if p in s.batches && |s.batches[p].outcomes| < |s.batches[p].ids|
         && reached <= |events(s.batches[p].ids[|s.batches[p].outcomes|]).targets|
      then
        var b := s.batches[p];
        var e := b.ids[|b.outcomes|];
        var d := Dispatch(e, reached, others);
        s.(batches := s.batches[p := b.(outcomes := b.outcomes + [Succeeded(events, d)])],
           log := s.log + [d],
           notifications := Handle(events, s.notifications, e, reached))
      else s
    case Commit(p) =>
      if p in s.batches && |s.batches[p].outcomes| == |s.batches[p].ids| == |s.batches[p].attempts|
      then s.(rows := Settle(s.rows, s.batches[p]), batches := s.batches - {p})
      else s
    case Crash(p) => s.(batches := s.batches - {p})
  }

  function Run(events: Catalogue, s: State, steps: seq<Step>): State
    decreases |steps|
  {
    if steps == [] then s else Run(events, Apply(events, s, steps[0]), steps[1..])
  }

  // ---- Invariant ----

  function Failures(events: Catalogue, log: seq<Dispatch>, e: EventId): nat {
    if log == [] then 0
    else
      var last := log[|log| - 1];
      Failures(events, log[..|log| - 1], e) + if last.event == e && !Succeeded(events, last) then 1 else 0
  }

  ghost predicate EverSucceeded(events: Catalogue, log: seq<Dispatch>, e: EventId) {
    exists d :: d in log && d.event == e && Succeeded(events, d)
  }

  /** An outcome not yet written is in the log. */
  ghost predicate OutcomeOk(events: Catalogue, log: seq<Dispatch>, e: EventId, attempts: nat, ok: bool) {
    if ok then EverSucceeded(events, log, e) else Failures(events, log, e) > attempts
  }

  /** What a batch read about its rows is still true. */
  ghost predicate BatchOk(events: Catalogue, s: State, b: Batch) {
    && |b.outcomes| <= |b.ids| == |b.attempts|
    && (forall i :: 0 <= i < |b.ids| ==>
          b.ids[i] in s.rows && Pending(s.rows[b.ids[i]]) && s.rows[b.ids[i]].attempts == b.attempts[i])
    && (forall i, j :: 0 <= i < j < |b.ids| ==> b.ids[i] != b.ids[j])
    && (forall i :: 0 <= i < |b.outcomes| ==> OutcomeOk(events, s.log, b.ids[i], b.attempts[i], b.outcomes[i]))
  }

  ghost predicate RowOk(events: Catalogue, log: seq<Dispatch>, e: EventId, r: OutRow) {
    && Sound(r)
    && r.attempts <= Failures(events, log, e)
    && (r.published ==> EverSucceeded(events, log, e))
  }

  ghost predicate RowsOk(events: Catalogue, s: State) {
    forall e :: e in s.rows ==> RowOk(events, s.log, e, s.rows[e])
  }

  ghost predicate BatchesOk(events: Catalogue, s: State) {
    forall p :: p in s.batches ==> BatchOk(events, s, s.batches[p])
  }

  ghost predicate Disjoint(s: State) {
    forall p, q, e :: p in s.batches && q in s.batches && e in s.batches[p].ids && e in s.batches[q].ids ==> p == q
  }

  ghost predicate Inv(events: Catalogue, s: State) {
    RowsOk(events, s) && BatchesOk(events, s) && Disjoint(s)
  }

  // ---- Every step keeps it ----

  lemma LogGrows(events: Catalogue, log: seq<Dispatch>, d: Dispatch, e: EventId)
    ensures Failures(events, log + [d], e)
        == Failures(events, log, e) + (if d.event == e && !Succeeded(events, d) then 1 else 0)
    ensures EverSucceeded(events, log, e) ==> EverSucceeded(events, log + [d], e)
    ensures d.event == e && Succeeded(events, d) ==> EverSucceeded(events, log + [d], e)
  {
    assert (log + [d])[..|log|] == log;
    if EverSucceeded(events, log, e) {
      var x :| x in log && x.event == e && Succeeded(events, x);
      assert x in log + [d];
    }
    assert d in log + [d];
  }

  lemma FetchKeeps(events: Catalogue, s: State, p: PublisherId, ids: seq<EventId>)
    requires Inv(events, s) && p !in s.batches && Fetchable(s, ids)
    ensures Inv(events, Apply(events, s, Fetch(p, ids)))
  {
    var s' := Apply(events, s, Fetch(p, ids));
    forall a, b, e | a in s'.batches && b in s'.batches && e in s'.batches[a].ids && e in s'.batches[b].ids
      ensures a == b
    {
      assert forall x :: x in ids ==> !Locked(s, x);
    }
    forall q | q in s'.batches ensures BatchOk(events, s', s'.batches[q]) {
      assert q != p ==> BatchOk(events, s, s.batches[q]);
    }
  }

  lemma DeliveredBatch(events: Catalogue, s: State, s': State, b: Batch, d: Dispatch)
    requires BatchOk(events, s, b) && s'.rows == s.rows && s'.log == s.log + [d]
    ensures BatchOk(events, s', b)
  {
    forall i | 0 <= i < |b.outcomes| ensures OutcomeOk(events, s'.log, b.ids[i], b.attempts[i], b.outcomes[i]) {
      LogGrows(events, s.log, d, b.ids[i]);
    }
  }

  lemma DeliveredNext(events: Catalogue, s: State, s': State, b: Batch, d: Dispatch)
    requires BatchOk(events, s, b) && RowsOk(events, s) && s'.rows == s.rows && s'.log == s.log + [d]
    requires |b.outcomes| < |b.ids| && d.event == b.ids[|b.outcomes|]
    ensures BatchOk(events, s', b.(outcomes := b.outcomes + [Succeeded(events, d)]))
  {
    var n := |b.outcomes|;
    DeliveredBatch(events, s, s', b, d);
    LogGrows(events, s.log, d, d.event);
    assert RowOk(events, s.log, d.event, s.rows[b.ids[n]]);
    assert OutcomeOk(events, s'.log, b.ids[n], b.attempts[n], Succeeded(events, d));
  }

  lemma DeliverKeeps(events: Catalogue, s: State, p: PublisherId, reached: nat, others: seq<bool>)
    requires Inv(events, s)
    ensures Inv(events, Apply(events, s, Deliver(p, reached, others)))
  {
    var s' := Apply(events, s, Deliver(p, reached, others));
    if s' != s {
      var d := Dispatch(s.batches[p].ids[|s.batches[p].outcomes|], reached, others);
      forall q | q in s'.batches ensures BatchOk(events, s', s'.batches[q]) {
        DeliveredBatch(events, s, s', s.batches[q], d);
        if q == p {
          DeliveredNext(events, s, s', s.batches[q], d);
        }
      }
      forall e | e in s'.rows ensures RowOk(events, s'.log, e, s'.rows[e]) {
        assert RowOk(events, s.log, e, s.rows[e]);
        LogGrows(events, s.log, d, e);
      }
    }
  }

  lemma CommittedRow(events: Catalogue, s: State, b: Batch, e: EventId)
    requires BatchOk(events, s, b) && |b.outcomes| == |b.ids| && e in s.rows && RowOk(events, s.log, e, s.rows[e])
    ensures RowOk(events, s.log, e, Settle(s.rows, b)[e])
    ensures e in b.ids ==> Settle(s.rows, b)[e] == Attempted(s.rows[e], b.outcomes[IndexOf(b.ids, e)])
  {
    if e in b.ids {
      assert OutcomeOk(events, s.log, b.ids[IndexOf(b.ids, e)], b.attempts[IndexOf(b.ids, e)],
        b.outcomes[IndexOf(b.ids, e)]);
    }
  }

  lemma CommitKeeps(events: Catalogue, s: State, p: PublisherId)
    requires Inv(events, s)
    ensures Inv(events, Apply(events, s, Commit(p)))
  {
    var s' := Apply(events, s, Commit(p));
    if s' != s {
      var b := s.batches[p];
      forall e | e in s'.rows ensures RowOk(events, s'.log, e, s'.rows[e]) {
        assert RowOk(events, s.log, e, s.rows[e]);
        CommittedRow(events, s, b, e);
      }
      forall q | q in s'.batches ensures BatchOk(events, s', s'.batches[q]) {
        OtherBatch(events, s, p, q);
      }
    }
  }

  /** Locked rows are not written by anyone else. */
  lemma OtherBatch(events: Catalogue, s: State, p: PublisherId, q: PublisherId)
    requires BatchesOk(events, s) && Disjoint(s) && p in s.batches && q in s.batches && q != p
    requires |s.batches[p].outcomes| == |s.batches[p].ids|
    ensures BatchOk(events, Apply(events, s, Commit(p)), s.batches[q])
  {
    var b := s.batches[q];
    assert BatchOk(events, s, b) && BatchOk(events, s, s.batches[p]);
    forall i | 0 <= i < |b.ids| ensures b.ids[i] !in s.batches[p].ids {
      assert b.ids[i] in b.ids;
    }
  }

  lemma StepKeeps(events: Catalogue, s: State, step: Step)
    requires Inv(events, s)
    ensures Inv(events, Apply(events, s, step))
  {
    match step
    case Append(e) =>
      var s' := Apply(events, s, step);
      forall p | p in s'.batches ensures BatchOk(events, s', s'.batches[p]) {
        assert BatchOk(events, s, s.batches[p]);
      }
    case Fetch(p, ids) => if p !in s.batches && Fetchable(s, ids) { FetchKeeps(events, s, p, ids); }
    case Deliver(p, reached, others) => DeliverKeeps(events, s, p, reached, others);
    case Commit(p) => CommitKeeps(events, s, p);
    case Crash(p) =>
      var s' := Apply(events, s, step);
      forall q | q in s'.batches ensures BatchOk(events, s', s'.batches[q]) {
        assert BatchOk(events, s, s.batches[q]);
      }
  }

  lemma {:induction false} RunKeeps(events: Catalogue, s: State, steps: seq<Step>)
    requires Inv(events, s)
    ensures Inv(events, Run(events, s, steps))
    decreases |steps|
  {
    if steps != [] {
      StepKeeps(events, s, steps[0]);
      RunKeeps(events, Apply(events, s, steps[0]), steps[1..]);
    }
  }

  /** Every row of every run is pending, published or dead-lettered, never two of these; a published row
      had a dispatch in which every handler succeeded; a row is dead-lettered exactly at ten attempts,
      each of them a dispatch that failed. */
  lemma OutboxSafety(events: Catalogue, steps: seq<Step>, e: EventId)
    requires e in Run(events, Start, steps).rows
    ensures var s := Run(events, Start, steps);
      var r := s.rows[e];
      && !(r.published && r.failed)
      && (r.published ==> EverSucceeded(events, s.log, e))
      && (r.failed <==> r.attempts == 10)
      && r.attempts <= 10 && r.attempts <= Failures(events, s.log, e)
  {
    var s := Run(events, Start, steps);
    RunKeeps(events, Start, steps);
    assert RowOk(events, s.log, e, s.rows[e]);
  }

  // ---- What one round of a publisher writes ----

  /** Every handler succeeded, the notification handler by getting through all targets. */
  predicate GoesWell(events: Catalogue, d: Dispatch) {
    false !in d.others && d.reached == |events(d.event).targets|
  }

  lemma GoesWellIs(events: Catalogue, d: Dispatch)
    ensures GoesWell(events, d) <==> Succeeded(events, d)
  {
  }

  function Events(ds: seq<Dispatch>): seq<EventId> {
    seq(|ds|, i requires 0 <= i < |ds| => ds[i].event)
  }

  function Deliveries(p: PublisherId, ds: seq<Dispatch>): seq<Step> {
    seq(|ds|, i requires 0 <= i < |ds| => Deliver(p, ds[i].reached, ds[i].others))
  }

  function Outcomes(events: Catalogue, ds: seq<Dispatch>): seq<bool> {
    seq(|ds|, i requires 0 <= i < |ds| => GoesWell(events, ds[i]))
  }

  /** The publisher is idle, and the rows are there, pending, and in nobody's batch. */
  ghost predicate Ready(events: Catalogue, s: State, p: PublisherId, ds: seq<Dispatch>) {
    && p !in s.batches
    && (forall i, j :: 0 <= i < j < |ds| ==> ds[i].event != ds[j].event)
    && (forall i :: 0 <= i < |ds| ==> ds[i].reached <= |events(ds[i].event).targets| && Waiting(s, ds[i].event))
  }

  ghost predicate Waiting(s: State, e: EventId) {
    && e in s.rows && !s.rows[e].published && !s.rows[e].failed
    && forall q :: q in s.batches ==> e !in s.batches[q].ids
  }

  /** The dispatches are those of the rows of the batch that are still to come. */
  ghost predicate Remaining(events: Catalogue, b: Batch, ds: seq<Dispatch>) {
    && |b.outcomes| + |ds| == |b.ids|
    && forall i :: 0 <= i < |ds| ==>
        ds[i].event == b.ids[|b.outcomes| + i] && ds[i].reached <= |events(ds[i].event).targets|
  }

  function After(events: Catalogue, b: Batch, ds: seq<Dispatch>): Batch {
    b.(outcomes := b.outcomes + Outcomes(events, ds))
  }

  /** Nothing changed but the publisher's batch, the log and the notifications. */
  ghost predicate Delivered(s: State, s': State, p: PublisherId, b: Batch, ds: seq<Dispatch>) {
    s'.rows == s.rows && s'.log == s.log + ds && s'.batches == s.batches[p := b]
  }

  lemma DeliveredMore(s: State, s1: State, s2: State, p: PublisherId, b1: Batch, b2: Batch, ds: seq<Dispatch>)
    requires ds != [] && Delivered(s, s1, p, b1, [ds[0]]) && Delivered(s1, s2, p, b2, ds[1..])
    ensures Delivered(s, s2, p, b2, ds)
  {
    assert s.log + [ds[0]] + ds[1..] == s.log + ds;
  }

  lemma DeliverOne(events: Catalogue, s: State, p: PublisherId, d: Dispatch)
    requires p in s.batches && |s.batches[p].outcomes| < |s.batches[p].ids|
    requires d.event == s.batches[p].ids[|s.batches[p].outcomes|] && d.reached <= |events(d.event).targets|
    ensures Delivered(s, Apply(events, s, Deliver(p, d.reached, d.others)), p, After(events, s.batches[p], [d]), [d])
  {
    GoesWellIs(events, d);
    assert Outcomes(events, [d]) == [GoesWell(events, d)];
  }

  lemma RemainingLess(events: Catalogue, b: Batch, ds: seq<Dispatch>)
    requires ds != [] && Remaining(events, b, ds)
    ensures var b' := After(events, b, [ds[0]]);
      && |b.outcomes| < |b.ids| && b.ids[|b.outcomes|] == ds[0].event && ds[0].reached <= |events(ds[0].event).targets|
      && Remaining(events, b', ds[1..]) && After(events, b', ds[1..]) == After(events, b, ds)
  {
    var b' := After(events, b, [ds[0]]);
    assert b.ids[|b.outcomes| + 0] == ds[0].event;
    forall i | 0 <= i < |ds[1..]| ensures ds[1..][i].event == b'.ids[|b'.outcomes| + i] {
      assert ds[1..][i] == ds[i + 1];
    }
    assert Outcomes(events, [ds[0]]) + Outcomes(events, ds[1..]) == Outcomes(events, ds);
    assert b.outcomes + Outcomes(events, [ds[0]]) + Outcomes(events, ds[1..]) == b.outcomes + Outcomes(events, ds);
  }

  lemma {:induction false} DeliverAll(events: Catalogue, s: State, p: PublisherId, ds: seq<Dispatch>)
    requires p in s.batches && Remaining(events, s.batches[p], ds)
    ensures Delivered(s, Run(events, s, Deliveries(p, ds)), p, After(events, s.batches[p], ds), ds)
    decreases |ds|
  {
    var b := s.batches[p];
    if ds == [] {
      assert Deliveries(p, ds) == [] && After(events, b, ds) == b;
      assert s.batches[p := b] == s.batches && s.log + ds == s.log;
    } else {
      var first := Deliver(p, ds[0].reached, ds[0].others);
      var s1 := Apply(events, s, first);
      RemainingLess(events, b, ds);
      DeliverOne(events, s, p, ds[0]);
      DeliverAll(events, s1, p, ds[1..]);
      assert Deliveries(p, ds)[0] == first && Deliveries(p, ds)[1..] == Deliveries(p, ds[1..]);
      var s2 := Run(events, s1, Deliveries(p, ds[1..]));
      DeliveredMore(s, s1, s2, p, After(events, b, [ds[0]]), After(events, b, ds), ds);
    }
  }

  lemma {:induction false} RunTwice(events: Catalogue, s: State, a: seq<Step>, b: seq<Step>)
    ensures Run(events, s, a + b) == Run(events, Run(events, s, a), b)
    decreases |a|
  {
    if a == [] {
      assert a + b == b;
    } else {
      assert (a + b)[1..] == a[1..] + b;
      RunTwice(events, Apply(events, s, a[0]), a[1..], b);
    }
  }

  lemma RunOne(events: Catalogue, s: State, step: Step)
    ensures Run(events, s, [step]) == Apply(events, s, step)
  {
    assert [step][1..] == [];
  }

  lemma {:induction false} IndexIs(ids: seq<EventId>, i: nat)
    requires i < |ids| && forall j, k :: 0 <= j < k < |ids| ==> ids[j] != ids[k]
    ensures IndexOf(ids, ids[i]) == i
  {
    var k := IndexOf(ids, ids[i]);
    assert ids[k] == ids[i];
  }

  /** The publisher's batch holds these dispatches, ready to be committed. */
  ghost predicate Dispatched(events: Catalogue, s: State, p: PublisherId, ds: seq<Dispatch>) {
    && p in s.batches && s.batches[p].ids == Events(ds) && s.batches[p].outcomes == Outcomes(events, ds)
    && |s.batches[p].attempts| == |ds| && (forall i, j :: 0 <= i < j < |ds| ==> ds[i].event != ds[j].event)
    && forall i :: 0 <= i < |ds| ==>
        && ds[i].event in s.rows && Pending(s.rows[ds[i].event])
        && s.batches[p].attempts[i] == s.rows[ds[i].event].attempts
  }

  /** The round's rows are attempted and nothing else changed. */
  ghost predicate Attempts(events: Catalogue, s: State, s': State, ds: seq<Dispatch>) {
    && s'.rows.Keys == s.rows.Keys
    && (forall i :: 0 <= i < |ds| ==>
          ds[i].event in s.rows && s'.rows[ds[i].event] == Attempted(s.rows[ds[i].event], GoesWell(events, ds[i])))
    && (forall e :: e in s.rows && e !in Events(ds) ==> s'.rows[e] == s.rows[e])
  }

  lemma CommitIs(events: Catalogue, s: State, p: PublisherId, ds: seq<Dispatch>)
    requires Dispatched(events, s, p, ds)
    ensures var s' := Apply(events, s, Commit(p));
      s' == s.(rows := s'.rows, batches := s.batches - {p}) && Attempts(events, s, s', ds)
  {
    var s', b := Apply(events, s, Commit(p)), s.batches[p];
    forall i | 0 <= i < |ds|
      ensures s'.rows[ds[i].event] == Attempted(s.rows[ds[i].event], GoesWell(events, ds[i]))
    {
      IndexIs(b.ids, i);
      assert b.ids[i] == ds[i].event && b.outcomes[i] == GoesWell(events, ds[i]);
    }
  }

  lemma FetchIs(events: Catalogue, s: State, p: PublisherId, ds: seq<Dispatch>)
    requires Ready(events, s, p, ds)
    ensures var s' := Apply(events, s, Fetch(p, Events(ds)));
      && s' == s.(batches := s'.batches) && p in s'.batches && s'.batches - {p} == s.batches
      && var b := s'.batches[p];
         && b.ids == Events(ds) && Remaining(events, b, ds) && After(events, b, ds).outcomes == Outcomes(events, ds)
         && |b.attempts| == |ds| && forall i :: 0 <= i < |ds| ==> b.attempts[i] == s.rows[ds[i].event].attempts
  {
    var ids := Events(ds);
    assert Fetchable(s, ids);
    assert Apply(events, s, Fetch(p, ids)).batches[p] == Batch(ids, ReadAttempts(s.rows, ids), []);
    assert [] + Outcomes(events, ds) == Outcomes(events, ds);
  }

  lemma DispatchIs(events: Catalogue, s: State, p: PublisherId, ds: seq<Dispatch>)
    requires Ready(events, s, p, ds)
    ensures var s' := Run(events, s, [Fetch(p, Events(ds))] + Deliveries(p, ds));
      s'.rows == s.rows && s'.log == s.log + ds && s'.batches - {p} == s.batches && Dispatched(events, s', p, ds)
  {
    var fetched := Apply(events, s, Fetch(p, Events(ds)));
    RunOne(events, s, Fetch(p, Events(ds)));
    RunTwice(events, s, [Fetch(p, Events(ds))], Deliveries(p, ds));
    FetchIs(events, s, p, ds);
    DeliverAll(events, fetched, p, ds);
    assert fetched.batches[p := After(events, fetched.batches[p], ds)] - {p} == fetched.batches - {p};
  }

  /** Over every run: a publisher that fetches waiting rows, dispatches each and commits leaves exactly those rows
      attempted, published where every handler succeeded and one attempt further where not; every other row and every
      other publisher's batch is as it was. */
  lemma RoundIs(events: Catalogue, steps: seq<Step>, p: PublisherId, ds: seq<Dispatch>)
    requires Ready(events, Run(events, Start, steps), p, ds)
    ensures var s := Run(events, Start, steps);
      var s' := Run(events, s, [Fetch(p, Events(ds))] + Deliveries(p, ds) + [Commit(p)]);
      s'.batches == s.batches && s'.log == s.log + ds && Attempts(events, s, s', ds)
  {
    var s, dispatching := Run(events, Start, steps), [Fetch(p, Events(ds))] + Deliveries(p, ds);
    var dispatched := Run(events, s, dispatching);
    DispatchIs(events, s, p, ds);
    RunTwice(events, s, dispatching, [Commit(p)]);
    RunOne(events, dispatched, Commit(p));
    CommitIs(events, dispatched, p, ds);
  }

  /** An event is appended as a waiting row, and a crash puts the rows of its batch back in waiting, with the attempts
      they had. */
  lemma BackInWaiting(events: Catalogue, steps: seq<Step>, p: PublisherId, e: EventId)
    ensures var s := Run(events, Start, steps);
      && (e !in s.rows ==> var s' := Apply(events, s, Append(e)); Waiting(s', e) && s'.rows[e].attempts == 0)
      && (p in s.batches && e in s.batches[p].ids ==>
            var s' := Apply(events, s, Crash(p)); Waiting(s', e) && s'.rows == s.rows && p !in s'.batches)
  {
    var s := Run(events, Start, steps);
    RunKeeps(events, Start, steps);
    if e !in s.rows {
      forall q | q in s.batches ensures e !in s.batches[q].ids {
        assert BatchOk(events, s, s.batches[q]);
      }
    }
    if p in s.batches {
      assert BatchOk(events, s, s.batches[p]);
    }
  }

  // ---- Settled rows are final ----

  lemma StepKeepsSettled(events: Catalogue, s: State, step: Step, e: EventId)
    requires BatchesOk(events, s) && e in s.rows && !Pending(s.rows[e])
    ensures var s' := Apply(events, s, step); e in s'.rows && s'.rows[e] == s.rows[e]
  {
    if step.Commit? && step.publisher in s.batches {
      var b := s.batches[step.publisher];
      assert BatchOk(events, s, b);
      assert e !in b.ids;
    }
  }

  lemma {:induction false} SettledForever(events: Catalogue, s: State, steps: seq<Step>, e: EventId)
    requires Inv(events, s) && e in s.rows && !Pending(s.rows[e])
    ensures var s' := Run(events, s, steps); e in s'.rows && s'.rows[e] == s.rows[e]
    decreases |steps|
  {
    if steps != [] {
      StepKeeps(events, s, steps[0]);
      StepKeepsSettled(events, s, steps[0], e);
      SettledForever(events, Apply(events, s, steps[0]), steps[1..], e);
    }
  }

  /** From any reachable state on. */
  lemma SettledIsFinal(events: Catalogue, past: seq<Step>, future: seq<Step>, e: EventId)
    requires var s := Run(events, Start, past); e in s.rows && !Pending(s.rows[e])
    ensures var s := Run(events, Start, past);
      var s' := Run(events, s, future); e in s'.rows && s'.rows[e] == s.rows[e]
  {
    RunKeeps(events, Start, past);
    SettledForever(events, Run(events, Start, past), future, e);
  }

  // ---- Redelivery does not multiply notifications ----

  function Only(notes: map<Key, nat>, e: EventId): map<Key, nat> {
    map k | k in notes && k.event == e :: notes[k]
  }

  function Max(a: nat, b: nat): nat {
    if a < b then b else a
  }

  /** The furthest any dispatch of `e` got. */
  function Furthest(log: seq<Dispatch>, e: EventId): nat {
    if log == [] then 0
    else
      var rest, last := Furthest(log[..|log| - 1], e), log[|log| - 1];
      if last.event == e then Max(rest, last.reached) else rest
  }

  lemma {:induction false} HandleOnly(events: Catalogue, notes: map<Key, nat>, e: EventId, n: nat, other: EventId)
    requires n <= |events(e).targets|
    ensures Only(Handle(events, notes, e, n), other) == if other == e then Handle(events, Only(notes, e), e, n)
        else Only(notes, other)
  {
    if n > 0 {
      HandleOnly(events, notes, e, n - 1, other);
    }
  }

  lemma {:induction false} HandleCovers(events: Catalogue, notes: map<Key, nat>, e: EventId, m: nat, n: nat)
    requires n < m <= |events(e).targets|
    ensures KeyOf(events, e, events(e).targets[n]) in Handle(events, notes, e, m)
  {
    if n < m - 1 {
      HandleCovers(events, notes, e, m - 1, n);
    }
  }

  /** The first target of the event for a user. */
  function FirstFor(targets: seq<Target>, user: Option<nat>): (i: nat)
    ensures i <= |targets|
    ensures i < |targets| ==> targets[i].user == user
    ensures forall j :: 0 <= j < i ==> targets[j].user != user
  {
    if targets == [] || targets[0].user == user then 0 else 1 + FirstFor(targets[1..], user)
  }

  /** The notification is for one of the first n targets, under the event's tenant and the target's user. */
  predicate Targeted(ev: Event, e: EventId, n: nat, k: Key)
    requires n <= |ev.targets|
  {
    k.tenant == ev.tenant && k.event == e && exists i :: 0 <= i < n && ev.targets[i].user == k.user
  }

  /** What handling adds: a notification for each target reached that had none, with the content of the first target of
      that user; everything else stays as it was. */
  lemma {:induction false} HandleAdds(events: Catalogue, notes: map<Key, nat>, e: EventId, n: nat, k: Key)
    requires n <= |events(e).targets|
    ensures var ev, after := events(e), Handle(events, notes, e, n);
      && (k in after <==> k in notes || Targeted(ev, e, n, k))
      && (k in notes ==> after[k] == notes[k])
      && (k in after && k !in notes ==>
            FirstFor(ev.targets, k.user) < n && after[k] == ev.targets[FirstFor(ev.targets, k.user)].content)
    decreases n
  {
    if n > 0 {
      HandleAdds(events, notes, e, n - 1, k);
    }
  }

  /** Handling again, as far or less far, adds nothing; further, it continues. */
  lemma {:induction false} HandleAgain(events: Catalogue, notes: map<Key, nat>, e: EventId, m: nat, n: nat)
    requires m <= |events(e).targets| && n <= |events(e).targets|
    ensures Handle(events, Handle(events, notes, e, m), e, n) == Handle(events, notes, e, Max(m, n))
    decreases n
  {
    if n > 0 {
      HandleAgain(events, notes, e, m, n - 1);
      if n <= m {
        HandleCovers(events, notes, e, m, n - 1);
      }
    }
  }

  ghost predicate NotesOk(events: Catalogue, s: State, e: EventId) {
    && Furthest(s.log, e) <= |events(e).targets|
    && Only(s.notifications, e) == Handle(events, map[], e, Furthest(s.log, e))
  }

  lemma NotesStep(events: Catalogue, s: State, step: Step, e: EventId)
    requires NotesOk(events, s, e)
    ensures NotesOk(events, Apply(events, s, step), e)
  {
    var s' := Apply(events, s, step);
    if step.Deliver? && s' != s {
      var d := s'.log[|s'.log| - 1];
      assert s'.log[..|s'.log| - 1] == s.log;
      HandleOnly(events, s.notifications, d.event, d.reached, e);
      if d.event == e {
        HandleAgain(events, map[], e, Furthest(s.log, e), d.reached);
      }
    }
  }

  lemma {:induction false} NotesRun(events: Catalogue, s: State, steps: seq<Step>, e: EventId)
    requires NotesOk(events, s, e)
    ensures NotesOk(events, Run(events, s, steps), e)
    decreases |steps|
  {
    if steps != [] {
      NotesStep(events, s, steps[0], e);
      NotesRun(events, Apply(events, s, steps[0]), steps[1..], e);
    }
  }

  lemma {:induction false} FurthestReached(log: seq<Dispatch>, d: Dispatch)
    requires d in log
    ensures d.reached <= Furthest(log, d.event)
  {
    if log[|log| - 1] != d {
      FurthestReached(log[..|log| - 1], d);
    }
  }

  /** However often and however partially an event is redelivered, its notifications are those of one
      delivery that got as far as the furthest; for a published event, those of one complete delivery. */
  lemma SameAsOneDelivery(events: Catalogue, steps: seq<Step>, e: EventId)
    ensures var s := Run(events, Start, steps);
      && Furthest(s.log, e) <= |events(e).targets|
      && Only(s.notifications, e) == Handle(events, map[], e, Furthest(s.log, e))
      && (e in s.rows && s.rows[e].published ==>
            Only(s.notifications, e) == Handle(events, map[], e, |events(e).targets|))
  {
    var s := Run(events, Start, steps);
    NotesRun(events, Start, steps, e);
    if e in s.rows && s.rows[e].published {
      OutboxSafety(events, steps, e);
      var d :| d in s.log && d.event == e && Succeeded(events, d);
      FurthestReached(s.log, d);
    }
  }

  /** The users an event is for; None stands for the whole tenant. */
  function Users(ev: Event): set<Option<nat>> {
    set i | 0 <= i < |ev.targets| :: ev.targets[i].user
  }

  /** The one notification an event makes for a user. */
  function NoteFor(ev: Event, e: EventId, user: Option<nat>): Key {
    Key(ev.tenant, e, user)
  }

  lemma NotesAreTargets(events: Catalogue, steps: seq<Step>, e: EventId, k: Key)
    requires k.event == e
    ensures var s, ev := Run(events, Start, steps), events(e);
      && Furthest(s.log, e) <= |ev.targets|
      && (k in s.notifications <==> Targeted(ev, e, Furthest(s.log, e), k))
      && (k in s.notifications ==> s.notifications[k] == ev.targets[FirstFor(ev.targets, k.user)].content)
  {
    var s := Run(events, Start, steps);
    SameAsOneDelivery(events, steps, e);
    HandleAdds(events, map[], e, Furthest(s.log, e), k);
    assert k in s.notifications <==> k in Only(s.notifications, e);
  }

  /** Over every run with any redelivery: a published event has exactly one notification for each user it targets,
      under its own tenant and with the content of that user's first target, and no other. */
  lemma OneNotePerUser(events: Catalogue, steps: seq<Step>, e: EventId)
    requires var s := Run(events, Start, steps); e in s.rows && s.rows[e].published
    ensures var s, ev := Run(events, Start, steps), events(e);
      && (forall i :: 0 <= i < |ev.targets| ==>
            var k := Key(ev.tenant, e, ev.targets[i].user);
            k in s.notifications && s.notifications[k] == ev.targets[FirstFor(ev.targets, ev.targets[i].user)].content)
      && (forall k :: k in s.notifications && k.event == e ==> k.tenant == ev.tenant && k.user in Users(ev))
      && |Only(s.notifications, e)| == |Users(ev)|
  {
    var s, ev := Run(events, Start, steps), events(e);
    OutboxSafety(events, steps, e);
    var d :| d in s.log && d.event == e && Succeeded(events, d);
    FurthestReached(s.log, d);
    forall k: Key | k.event == e
      ensures k in s.notifications <==> k.tenant == ev.tenant && k.user in Users(ev)
      ensures k in s.notifications ==> s.notifications[k] == ev.targets[FirstFor(ev.targets, k.user)].content
    {
      NotesAreTargets(events, steps, e, k);
    }
    CountNotes(ev, e, Users(ev), Only(s.notifications, e).Keys);
  }

  lemma {:induction false} CountNotes(ev: Event, e: EventId, users: set<Option<nat>>, keys: set<Key>)
    requires forall k :: k in keys <==> k.event == e && k.tenant == ev.tenant && k.user in users
    ensures |keys| == |users|
    decreases users
  {
    if users == {} {
      assert keys == {};
    } else {
      var u :| u in users;
      var k := NoteFor(ev, e, u);
      assert k in keys;
      CountNotes(ev, e, users - {u}, keys - {k});
    }
  }
}

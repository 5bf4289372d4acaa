/** One publisher draining the outbox, tick by tick.

`rows` is the outbox in order of occurrence; a row is known by its position.  A tick takes the first
`batch` pending rows, dispatches each, and records the outcome.
 */
module OutboxDrain {

  const MAX_ATTEMPTS := 10

  datatype OutRow = OutRow(attempts: nat, published: bool, failed: bool)

  /** Per tick, which rows' dispatch succeeds. */
  type Outcomes = nat -> bool

  predicate Pending(r: OutRow) {
    !r.published && !r.failed
  }

  /** A row is published, parked after exactly ten failures, or pending with fewer. */
  predicate Sound(r: OutRow) {
    && r.attempts <= MAX_ATTEMPTS
    && (r.failed <==> r.attempts == MAX_ATTEMPTS)
    && !(r.published && r.failed)
  }

  datatype Failure = Failure(row: nat, attempts: nat, deadLetter: bool)

  function ClassifyFailure(row: nat, priorAttempts: nat): Failure {
    Failure(row, priorAttempts + 1, priorAttempts + 1 >= MAX_ATTEMPTS)
  }

  /** A pending row after one dispatch. */
  function Attempted(r: OutRow, ok: bool): OutRow {
    if ok then r.(published := true)
    else r.(attempts := r.attempts + 1, failed := r.attempts + 1 >= MAX_ATTEMPTS)
  }

  function PendingCount(rows: seq<OutRow>): (n: nat)
    ensures n <= |rows|
  {
    if rows == [] then 0
    else PendingCount(rows[..|rows| - 1]) + if Pending(rows[|rows| - 1]) then 1 else 0
  }

  /** Row `i` is among the first `batch` pending ones. */
  predicate InBatch(rows: seq<OutRow>, batch: nat, i: nat)
    requires i < |rows|
  {
    Pending(rows[i]) && PendingCount(rows[..i]) < batch
  }

  function Tick(rows: seq<OutRow>, batch: nat, ok: Outcomes): (out: seq<OutRow>)
    ensures |out| == |rows|
    ensures forall i :: 0 <= i < |rows| ==> out[i] == if InBatch(rows, batch, i) then Attempted(rows[i], ok(i))
        else rows[i]
  {
    seq(|rows|, i requires 0 <= i < |rows| => if InBatch(rows, batch, i) then Attempted(rows[i], ok(i)) else rows[i])
  }

  function Ticks(rows: seq<OutRow>, batch: nat, oks: seq<Outcomes>): (out: seq<OutRow>)
    ensures |out| == |rows|
  {
    if oks == [] then rows else Tick(Ticks(rows, batch, oks[..|oks| - 1]), batch, oks[|oks| - 1])
  }

  // ---- The publisher's loops ----

  class Publisher {
    var rows: seq<OutRow>
    const batchSize: nat

    constructor (rows: seq<OutRow>, batchSize: nat)
      ensures this.rows == rows && this.batchSize == batchSize
    {
      this.rows, this.batchSize := rows, batchSize;
    }

    /** The first pending rows, at most a batch of them. */
    method Fetch() returns (fetched: seq<nat>)
      ensures forall j :: 0 <= j < |fetched| ==> fetched[j] < |rows| && InBatch(rows, batchSize, fetched[j])
      ensures forall i :: 0 <= i < |rows| && InBatch(rows, batchSize, i) ==> i in fetched
      ensures forall j, k :: 0 <= j < k < |fetched| ==> fetched[j] < fetched[k]
      ensures |fetched| == if PendingCount(rows) < batchSize then PendingCount(rows) else batchSize
    {
      fetched := [];
      for i := 0 to |rows|
        invariant forall j :: 0 <= j < |fetched| ==> fetched[j] < i && InBatch(rows, batchSize, fetched[j])
        invariant forall k :: 0 <= k < i && InBatch(rows, batchSize, k) ==> k in fetched
        invariant forall j, k :: 0 <= j < k < |fetched| ==> fetched[j] < fetched[k]
        invariant |fetched| == if PendingCount(rows[..i]) < batchSize then PendingCount(rows[..i]) else batchSize
      {
        assert rows[..i + 1][..i] == rows[..i];
        if Pending(rows[i]) && |fetched| < batchSize {
          fetched := fetched + [i];
        }
      }
      assert rows[..|rows|] == rows;
    }

    /** Dispatch the batch, then write what was published and what failed. */
    method ProcessOnce(ok: Outcomes)
      modifies this`rows
      ensures rows == Tick(old(rows), batchSize, ok)
    {
      var fetched := Fetch();
      var dispatched: seq<nat>, failures: seq<Failure> := [], [];
      for j := 0 to |fetched|
        invariant rows == old(rows)
        invariant forall k :: k in dispatched <==> k in fetched[..j] && ok(k)
        invariant forall f ::
          f in failures <==> f.row in fetched[..j] && !ok(f.row) && f == ClassifyFailure(f.row, rows[f.row].attempts)
      {
        var i := fetched[j];
        assert fetched[..j + 1] == fetched[..j] + [i];
        if ok(i) {
          dispatched := dispatched + [i];
        } else {
          failures := failures + [ClassifyFailure(i, rows[i].attempts)];
        }
      }
      assert fetched[..|fetched|] == fetched;
      MarkPublished(dispatched);
      RecordFailures(failures);
      forall i | 0 <= i < |rows| ensures rows[i] == Tick(old(rows), batchSize, ok)[i] {
        if InBatch(old(rows), batchSize, i) && !ok(i) {
          assert ClassifyFailure(i, old(rows)[i].attempts) in failures;
        }
      }
    }

    method MarkPublished(ids: seq<nat>)
      requires forall i :: i in ids ==> i < |rows|
      modifies this`rows
      ensures |rows| == |old(rows)|
      ensures forall i :: 0 <= i < |rows| ==> rows[i] == if i in ids then old(rows)[i].(published := true)
          else old(rows)[i]
    {
      for j := 0 to |ids|
        invariant |rows| == |old(rows)|
        invariant forall i :: 0 <= i < |rows| ==> rows[i] == if i in ids[..j] then old(rows)[i].(published := true)
            else old(rows)[i]
      {
        assert ids[j] in ids;
        rows := rows[ids[j] := rows[ids[j]].(published := true)];
      }
      assert ids[..|ids|] == ids;
    }

    method RecordFailures(failures: seq<Failure>)
      requires forall f :: f in failures ==> f.row < |rows|
      requires forall f, g :: f in failures && g in failures && f.row == g.row ==> f == g
      modifies this`rows
      ensures |rows| == |old(rows)|
      ensures forall f :: f in failures ==>
          rows[f.row] == old(rows)[f.row].(attempts := f.attempts, failed := f.deadLetter)
      ensures forall i :: 0 <= i < |rows| && (forall f :: f in failures ==> f.row != i) ==> rows[i] == old(rows)[i]
    {
      for j := 0 to |failures|
        invariant |rows| == |old(rows)|
        invariant forall k :: 0 <= k < j ==>
          rows[failures[k].row]
            == old(rows)[failures[k].row].(attempts := failures[k].attempts, failed := failures[k].deadLetter)
        invariant forall i :: 0 <= i < |rows| && (forall k :: 0 <= k < j ==> failures[k].row != i) ==>
            rows[i] == old(rows)[i]
      {
        var f := failures[j];
        rows := rows[f.row := rows[f.row].(attempts := f.attempts, failed := f.deadLetter)];
      }
    }
  }

  // ---- Which rows a tick takes ----

  /** Rows in the batch, among the first `k`. */
  function Taken(rows: seq<OutRow>, batch: nat, k: nat): nat
    requires k <= |rows|
  {
    if k == 0 then 0 else Taken(rows, batch, k - 1) + if InBatch(rows, batch, k - 1) then 1 else 0
  }

  lemma {:induction false} TakenIs(rows: seq<OutRow>, batch: nat, k: nat)
    requires k <= |rows|
    ensures var n := PendingCount(rows[..k]); Taken(rows, batch, k) == if n < batch then n else batch
  {
    if k > 0 {
      TakenIs(rows, batch, k - 1);
      assert rows[..k][..k - 1] == rows[..k - 1];
    } else {
      assert rows[..k] == [];
    }
  }

  /** A tick takes a full batch, or all pending rows if there are fewer, and the oldest first. */
  lemma OldestFirst(rows: seq<OutRow>, batch: nat, i: nat, j: nat)
    ensures Taken(rows, batch, |rows|) == if PendingCount(rows) < batch then PendingCount(rows) else batch
    ensures i < j < |rows| && Pending(rows[i]) && InBatch(rows, batch, j) ==> InBatch(rows, batch, i)
  {
    TakenIs(rows, batch, |rows|);
    assert rows[..|rows|] == rows;
    if i < j < |rows| {
      CountPrefix(rows, i, j);
    }
  }

  // ---- How fast the outbox drains ----

  ghost predicate AllSound(rows: seq<OutRow>) {
    forall i :: 0 <= i < |rows| ==> Sound(rows[i])
  }

  /** Nothing becomes pending again. */
  ghost predicate Shrinks(a: seq<OutRow>, b: seq<OutRow>) {
    |a| == |b| && forall i :: 0 <= i < |a| ==> (Pending(b[i]) ==> Pending(a[i]))
  }

  lemma TickSound(rows: seq<OutRow>, batch: nat, ok: Outcomes)
    requires AllSound(rows)
    ensures AllSound(Tick(rows, batch, ok)) && Shrinks(rows, Tick(rows, batch, ok))
  {
  }

  lemma {:induction false} TicksSound(rows: seq<OutRow>, batch: nat, oks: seq<Outcomes>)
    requires AllSound(rows)
    ensures AllSound(Ticks(rows, batch, oks)) && Shrinks(rows, Ticks(rows, batch, oks))
  {
    if oks != [] {
      TicksSound(rows, batch, oks[..|oks| - 1]);
      TickSound(Ticks(rows, batch, oks[..|oks| - 1]), batch, oks[|oks| - 1]);
    }
  }

  lemma {:induction false} CountShrinks(a: seq<OutRow>, b: seq<OutRow>)
    requires Shrinks(a, b)
    ensures PendingCount(b) <= PendingCount(a)
  {
    if a != [] {
      CountShrinks(a[..|a| - 1], b[..|b| - 1]);
    }
  }

  lemma {:induction false} CountPrefix(rows: seq<OutRow>, i: nat, k: nat)
    requires i <= k <= |rows|
    ensures PendingCount(rows[..i]) <= PendingCount(rows[..k])
    ensures i < k && Pending(rows[i]) ==> PendingCount(rows[..i]) < PendingCount(rows[..k])
    decreases k
  {
    if i < k {
      assert rows[..k][..k - 1] == rows[..k - 1];
      CountPrefix(rows, i, k - 1);
    }
  }

  lemma {:induction false} CountSplit(rows: seq<OutRow>, k: nat)
    requires k <= |rows|
    ensures PendingCount(rows) == PendingCount(rows[..k]) + PendingCount(rows[k..])
  {
    if k < |rows| {
      CountSplit(rows[..|rows| - 1], k);
      assert rows[..|rows| - 1][..k] == rows[..k];
      assert rows[k..][..|rows| - k - 1] == rows[..|rows| - 1][k..];
    } else {
      assert rows[..k] == rows && rows[k..] == [];
    }
  }

  ghost predicate Advanced(rows: seq<OutRow>, k: nat, t: nat)
    requires k <= |rows|
  {
    forall i :: 0 <= i < k && Pending(rows[i]) ==> rows[i].attempts >= t
  }

  /** As long as no more than a batch of the first `k` rows is pending, each of those is in every
      batch, so after t ticks it has failed at least t times or is settled. */
  lemma {:induction false} FrontAdvances(rows: seq<OutRow>, batch: nat, oks: seq<Outcomes>, k: nat)
    requires AllSound(rows) && k <= |rows| && PendingCount(rows[..k]) <= batch
    ensures Advanced(Ticks(rows, batch, oks), k, |oks|)
  {
    if oks != [] {
      var earlier := Ticks(rows, batch, oks[..|oks| - 1]);
      FrontAdvances(rows, batch, oks[..|oks| - 1], k);
      TicksSound(rows, batch, oks[..|oks| - 1]);
      CountShrinks(rows[..k], earlier[..k]);
      var out := Tick(earlier, batch, oks[|oks| - 1]);
      forall i | 0 <= i < k && Pending(out[i]) ensures out[i].attempts >= |oks| {
        assert Pending(earlier[i]) && earlier[i].attempts >= |oks| - 1;
        CountPrefix(earlier, i, k);
        assert InBatch(earlier, batch, i) && out[i] == Attempted(earlier[i], oks[|oks| - 1](i));
      }
    }
  }

  lemma {:induction false} CutAfter(rows: seq<OutRow>, batch: nat) returns (k: nat)
    ensures k <= |rows| && PendingCount(rows[..k]) == if PendingCount(rows) < batch then PendingCount(rows) else batch
  {
    k := 0;
    while k < |rows| && PendingCount(rows[..k]) < batch
      invariant k <= |rows| && PendingCount(rows[..k]) <= batch
    {
      assert rows[..k + 1][..k] == rows[..k];
      k := k + 1;
    }
    if k == |rows| {
      assert rows[..k] == rows;
    }
    CountSplit(rows, k);
  }

  lemma NonePending(rows: seq<OutRow>)
    requires forall i :: 0 <= i < |rows| ==> !Pending(rows[i])
    ensures PendingCount(rows) == 0
  {
    if rows != [] {
      NonePending(rows[..|rows| - 1]);
    }
  }

  /** Ten ticks settle the oldest batch. */
  lemma TenTicks(rows: seq<OutRow>, batch: nat, oks: seq<Outcomes>)
    requires AllSound(rows) && |oks| == MAX_ATTEMPTS
    ensures var left := PendingCount(Ticks(rows, batch, oks));
      left <= if PendingCount(rows) < batch then 0 else PendingCount(rows) - batch
  {
    var k := CutAfter(rows, batch);
    var out := Ticks(rows, batch, oks);
    FrontAdvances(rows, batch, oks, k);
    TicksSound(rows, batch, oks);
    forall i | 0 <= i < k ensures !Pending(out[..k][i]) {
      assert Sound(out[i]);
    }
    NonePending(out[..k]);
    CountShrinks(rows[k..], out[k..]);
    CountSplit(rows, k);
    CountSplit(out, k);
  }

  lemma {:induction false} TicksAppend(rows: seq<OutRow>, batch: nat, a: seq<Outcomes>, b: seq<Outcomes>)
    ensures Ticks(rows, batch, a + b) == Ticks(Ticks(rows, batch, a), batch, b)
  {
    if b == [] {
      assert a + b == a;
    } else {
      TicksAppend(rows, batch, a, b[..|b| - 1]);
      assert (a + b)[..|a + b| - 1] == a + b[..|b| - 1];
    }
  }

  lemma OneGroupLess(groups: nat, batch: nat, n: nat)
    requires groups > 0 && n <= groups * batch
    ensures (if n < batch then 0 else n - batch) <= (groups - 1) * batch
  {
    assert groups * batch == (groups - 1) * batch + batch;
    assert (groups - 1) * batch >= 0;
  }

  /** `groups` batches of pending rows are settled after ten ticks each, whatever the handlers do. */
  lemma {:induction false} DrainsInGroups(rows: seq<OutRow>, batch: nat, oks: seq<Outcomes>, groups: nat)
    requires AllSound(rows) && PendingCount(rows) <= groups * batch && |oks| == MAX_ATTEMPTS * groups
    ensures PendingCount(Ticks(rows, batch, oks)) == 0
    decreases groups
  {
    if groups > 0 {
      var first, rest := oks[..MAX_ATTEMPTS], oks[MAX_ATTEMPTS..];
      TenTicks(rows, batch, first);
      TicksSound(rows, batch, first);
      OneGroupLess(groups, batch, PendingCount(rows));
      DrainsInGroups(Ticks(rows, batch, first), batch, rest, groups - 1);
      TicksAppend(rows, batch, first, rest);
      assert first + rest == oks;
    }
  }

  lemma RoundedUp(n: nat, batch: nat)
    requires batch > 0
    ensures n <= ((n + batch - 1) / batch) * batch
  {
    assert n + batch - 1 == ((n + batch - 1) / batch) * batch + (n + batch - 1) % batch;
  }

  /** n pending rows are all settled within 10 times n over the batch size, rounded up. */
  lemma DrainBound(rows: seq<OutRow>, batch: nat, oks: seq<Outcomes>)
    requires AllSound(rows) && batch > 0
    requires |oks| == MAX_ATTEMPTS * ((PendingCount(rows) + batch - 1) / batch)
    ensures PendingCount(Ticks(rows, batch, oks)) == 0
  {
    RoundedUp(PendingCount(rows), batch);
    DrainsInGroups(rows, batch, oks, (PendingCount(rows) + batch - 1) / batch);
  }
}

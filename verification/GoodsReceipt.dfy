/** Receiving fuel against a purchase order.

Litres are stored in thousandths; a receipt's volume arrives unrounded.  The over-receipt check is made on the
unrounded figure, inside a tolerance of half a percent.
 */
module GoodsReceipt {
  import opened Numeric
  import opened Wrappers

  datatype Status = Draft | Submitted | Confirmed | PartiallyReceived | Received | Closed | Cancelled

  datatype Line = Line(ordered: int, received: int)

  datatype Match = Short | Matched | Over

  datatype Delivery = Delivery(line: nat, volume: int, verdict: Match)

  /** `stock` is what the order's receipts have posted into tanks. */
  datatype Order = Order(status: Status, lines: seq<Line>, deliveries: seq<Delivery>, stock: int)

  /** Whether the receiving tank is of the order's station and product, and whether it has an opening balance. */
  datatype TankState = TankState(fits: bool, hasOpening: bool)

  datatype Error = LineNotFound | NotReceivable | TankMismatch | OverReceipt | BadVolume | NoOpening | BadTransition

  /** Half a percent. */
  const TOLERANCE := 0.005

  function Slack(l: Line): real {
    l.ordered as real * TOLERANCE
  }

  predicate Full(l: Line) {
    l.received as real >= l.ordered as real - Slack(l)
  }

  predicate Exceeds(l: Line, x: real) {
    l.received as real + x > l.ordered as real + Slack(l)
  }

  function MatchOf(l: Line, x: real): Match {
    var variance := l.received as real + x - l.ordered as real;
    if variance < -Slack(l) then Short else if variance > Slack(l) then Over else Matched
  }

  // ---- Transitions ----

  predicate ValidTransition(from: Status, to: Status) {
    match from
    case Draft => to.Submitted? || to.Cancelled?
    case Submitted => to.Confirmed? || to.Cancelled?
    case Confirmed => to.Cancelled?
    case Received => to.Closed?
    case _ => false
  }

  function Transition(o: Order, to: Status): Result<Order, Error> {
    if ValidTransition(o.status, to) then Ok(o.(status := to)) else Err(BadTransition)
  }

  /** The status receipts put the order in. */
  function Advanced(lines: seq<Line>): Status {
    if lines != [] && AllFull(lines) then Received
    else if AnyReceived(lines) then PartiallyReceived
    else Confirmed
  }

  predicate AllFull(lines: seq<Line>) {
    forall i :: 0 <= i < |lines| ==> Full(lines[i])
  }

  predicate AnyReceived(lines: seq<Line>) {
    exists i :: 0 <= i < |lines| && lines[i].received > 0
  }

  // ---- Receiving ----

  function Refusal(o: Order, i: nat, x: real, tank: TankState): Result<(), Error> {
    if i >= |o.lines| then Err(LineNotFound)
    else if !(o.status.Confirmed? || o.status.PartiallyReceived?) then Err(NotReceivable)
    else if !tank.fits then Err(TankMismatch)
    else if Exceeds(o.lines[i], x) then Err(OverReceipt)
    else if Round(x) <= 0 then Err(BadVolume)
    else if !tank.hasOpening then Err(NoOpening)
    else Ok(())
  }

  function Receive(o: Order, i: nat, x: real, tank: TankState): Result<Order, Error> {
    var refused := Refusal(o, i, x, tank);
    if refused.Err? then Err(refused.error)
    else
      var l := o.lines[i];
      var lines := o.lines[i := l.(received := Round(l.received as real + x))];
      Ok(Order(Advanced(lines), lines, o.deliveries + [Delivery(i, Round(x), MatchOf(l, x))], o.stock + Round(x)))
  }

  datatype Op = DoTransition(to: Status) | DoReceive(line: nat, volume: real, tank: TankState)

  function Outcome(o: Order, r: Result<Order, Error>): Order {
    if r.Ok? then r.value else o
  }

  function Apply(o: Order, op: Op): Order {
    match op
    case DoTransition(to) => Outcome(o, Transition(o, to))
    case DoReceive(i, x, tank) => Outcome(o, Receive(o, i, x, tank))
  }

  function Run(o: Order, ops: seq<Op>): Order
    decreases |ops|
  {
    if ops == [] then o else Run(Apply(o, ops[0]), ops[1..])
  }

  predicate Fresh(o: Order) {
    && o.status.Draft? && o.deliveries == [] && o.stock == 0
    && forall i :: 0 <= i < |o.lines| ==> o.lines[i].ordered > 0 && o.lines[i].received == 0
  }

  // ---- Invariant ----

  function Delivered(deliveries: seq<Delivery>, i: nat): int {
    if deliveries == [] then 0
    else
      var last := deliveries[|deliveries| - 1];
      Delivered(deliveries[..|deliveries| - 1], i) + if last.line == i then last.volume else 0
  }

  /** The status says what has been received. */
  predicate StatusOk(o: Order) {
    match o.status
    case Draft => !AnyReceived(o.lines)
    case Submitted => !AnyReceived(o.lines)
    case Cancelled => !AnyReceived(o.lines)
    case Closed => o.lines != [] && AllFull(o.lines)
    case _ => o.status == Advanced(o.lines)
  }

  ghost predicate LinesOk(o: Order) {
    forall i :: 0 <= i < |o.lines| ==> o.lines[i].ordered > 0 && 0 <= o.lines[i].received == Delivered(o.deliveries, i)
  }

  ghost predicate NeverOver(o: Order) {
    forall k :: 0 <= k < |o.deliveries| ==> !o.deliveries[k].verdict.Over?
  }

  function TotalReceived(lines: seq<Line>): int {
    if lines == [] then 0 else TotalReceived(lines[..|lines| - 1]) + lines[|lines| - 1].received
  }

  /** What the lines have received is what went into tanks. */
  predicate StockOk(o: Order) {
    o.stock == TotalReceived(o.lines)
  }

  ghost predicate Inv(o: Order) {
    StatusOk(o) && LinesOk(o) && NeverOver(o) && StockOk(o)
  }

  lemma {:induction false} ReceivedUpdate(lines: seq<Line>, i: nat, l: Line)
    requires i < |lines|
    ensures TotalReceived(lines[i := l]) == TotalReceived(lines) + l.received - lines[i].received
  {
    var n := |lines| - 1;
    if i < n {
      ReceivedUpdate(lines[..n], i, l);
      assert lines[i := l][..n] == lines[..n][i := l];
    } else {
      assert lines[i := l][..n] == lines[..n];
    }
  }

  lemma {:induction false} NothingReceived(lines: seq<Line>)
    requires forall i :: 0 <= i < |lines| ==> lines[i].received == 0
    ensures TotalReceived(lines) == 0
  {
    if lines != [] {
      NothingReceived(lines[..|lines| - 1]);
    }
  }

  lemma DeliveredSnoc(deliveries: seq<Delivery>, d: Delivery, i: nat)
    ensures Delivered(deliveries + [d], i) == Delivered(deliveries, i) + if d.line == i then d.volume else 0
  {
    assert (deliveries + [d])[..|deliveries|] == deliveries;
  }

  lemma ReceiveKeeps(o: Order, i: nat, x: real, tank: TankState)
    requires Inv(o) && Receive(o, i, x, tank).Ok?
    ensures Inv(Receive(o, i, x, tank).value)
  {
    var o' := Receive(o, i, x, tank).value;
    assert x > 0.0 by {
      if x <= 0.0 {
        RoundMonotone(x, 0.0);
      }
    }
    RoundShift(o.lines[i].received, x);
    ReceivedUpdate(o.lines, i, o'.lines[i]);
    forall k | 0 <= k < |o'.lines|
      ensures o'.lines[k].ordered > 0 && 0 <= o'.lines[k].received == Delivered(o'.deliveries, k)
    {
      DeliveredSnoc(o.deliveries, Delivery(i, Round(x), MatchOf(o.lines[i], x)), k);
    }
    assert o'.lines[i].received > 0;
  }

  lemma TransitionKeeps(o: Order, to: Status)
    requires Inv(o)
    ensures Inv(Outcome(o, Transition(o, to)))
  {
    if o.status.Submitted? && to.Confirmed? && o.lines != [] {
      assert !Full(o.lines[0]) by {
        assert !(o.lines[0].received > 0);
      }
    }
  }

  lemma StepKeeps(o: Order, op: Op)
    requires Inv(o)
    ensures Inv(Apply(o, op))
  {
    match op
    case DoTransition(to) => TransitionKeeps(o, to);
    case DoReceive(i, x, tank) => if Receive(o, i, x, tank).Ok? { ReceiveKeeps(o, i, x, tank); }
  }

  lemma {:induction false} RunKeeps(o: Order, ops: seq<Op>)
    requires Inv(o)
    ensures Inv(Run(o, ops))
    decreases |ops|
  {
    if ops != [] {
      StepKeeps(o, ops[0]);
      RunKeeps(Apply(o, ops[0]), ops[1..]);
    }
  }

  predicate WithinHalfPercent(l: Line) {
    1000 * l.received >= 995 * l.ordered
  }

  predicate AllWithinHalfPercent(lines: seq<Line>) {
    forall i :: 0 <= i < |lines| ==> WithinHalfPercent(lines[i])
  }

  /** Over every run of receipts and transitions: each line holds the sum of its deliveries; what the lines hold went
      into tanks; no stored match is 'over'; a live order is received exactly when every line has at least its order
      less half a percent; and one that has stock is never cancelled. */
  lemma ReceivingIsSound(o: Order, ops: seq<Op>)
    requires Fresh(o)
    ensures var e := Run(o, ops);
      && LinesOk(e) && NeverOver(e) && e.stock == TotalReceived(e.lines)
      && (e.status.Confirmed? || e.status.PartiallyReceived? || e.status.Received? ==>
            (e.status.Received? <==> e.lines != [] && AllWithinHalfPercent(e.lines)))
      && (AnyReceived(e.lines) ==> !e.status.Cancelled? && !Transition(e, Cancelled).Ok?)
  {
    NothingReceived(o.lines);
    RunKeeps(o, ops);
    var e := Run(o, ops);
    assert forall i :: 0 <= i < |e.lines| ==> (Full(e.lines[i]) <==> WithinHalfPercent(e.lines[i]));
  }

  // ---- The cap ----

  predicate WithinCap(l: Line) {
    1000 * l.received <= 1005 * l.ordered
  }

  /** Rounding lifts the total across the cap: its fraction rounds up and no whole thousandth lies between it
      and the cap. */
  predicate Lifted(l: Line, x: real) {
    var total, cap := l.received as real + x, l.ordered as real + Slack(l);
    total - total.Floor as real >= 0.5 && total.Floor == cap.Floor
  }

  lemma CapIs(l: Line)
    ensures WithinCap(l) <==> l.received as real <= l.ordered as real + Slack(l)
  {
  }

  /** A receipt inside the tolerance is stored inside it exactly when rounding does not lift it across. */
  lemma StoredWithinCap(l: Line, x: real)
    requires l.ordered > 0 && l.received >= 0 && x > 0.0 && !Exceeds(l, x)
    ensures WithinCap(l.(received := Round(l.received as real + x))) <==> !Lifted(l, x)
  {
    var total, cap := l.received as real + x, l.ordered as real + Slack(l);
    CapIs(l.(received := Round(total)));
    assert total.Floor <= cap.Floor;
    if total - total.Floor as real >= 0.5 {
      assert (total + 0.5).Floor == total.Floor + 1;
    } else {
      assert (total + 0.5).Floor == total.Floor;
    }
  }

  /** The step is an accepted receipt on the line that rounding lifts across the cap. */
  predicate LiftsNow(o: Order, op: Op, i: nat) {
    op.DoReceive? && op.line == i < |o.lines| && Receive(o, i, op.volume, op.tank).Ok? && Lifted(o.lines[i], op.volume)
  }

  predicate Lifts(o: Order, ops: seq<Op>, i: nat)
    decreases |ops|
  {
    ops != [] && (LiftsNow(o, ops[0], i) || Lifts(Apply(o, ops[0]), ops[1..], i))
  }

  lemma PositiveVolume(x: real)
    requires Round(x) > 0
    ensures x > 0.0
  {
    if x <= 0.0 {
      RoundMonotone(x, 0.0);
    }
  }

  lemma StepWithinCap(o: Order, op: Op, i: nat)
    requires LinesOk(o) && i < |o.lines|
    ensures var o' := Apply(o, op);
      && i < |o'.lines| && o'.lines[i].ordered == o.lines[i].ordered
      && (WithinCap(o'.lines[i]) <==> WithinCap(o.lines[i]) && !LiftsNow(o, op, i))
  {
    if op.DoReceive? && op.line == i && Receive(o, i, op.volume, op.tank).Ok? {
      PositiveVolume(op.volume);
      CapIs(o.lines[i]);
      StoredWithinCap(o.lines[i], op.volume);
    }
  }

  /** Over every run: a line ends within 100.5 percent of its order if and only if it began there and no accepted
      receipt on it was lifted across the cap by rounding. */
  lemma {:induction false} NeverOverReceived(o: Order, ops: seq<Op>, i: nat)
    requires Inv(o) && i < |o.lines|
    ensures var e := Run(o, ops);
      && i < |e.lines| && e.lines[i].ordered == o.lines[i].ordered
      && (WithinCap(e.lines[i]) <==> WithinCap(o.lines[i]) && !Lifts(o, ops, i))
    decreases |ops|
  {
    if ops != [] {
      StepKeeps(o, ops[0]);
      StepWithinCap(o, ops[0], i);
      NeverOverReceived(Apply(o, ops[0]), ops[1..], i);
    }
  }

  /** At most half a thousandth above the cap. */
  predicate HalfOver(l: Line) {
    2000 * l.received <= 2010 * l.ordered + 1000
  }

  lemma ReceivedHalfOver(l: Line, x: real)
    requires !Exceeds(l, x)
    ensures HalfOver(l.(received := Round(l.received as real + x)))
  {
    RoundNearest(l.received as real + x);
  }

  lemma StepHalfOver(o: Order, op: Op, i: nat)
    requires i < |o.lines| && HalfOver(o.lines[i])
    ensures i < |Apply(o, op).lines| && HalfOver(Apply(o, op).lines[i])
  {
    if op.DoReceive? && op.line == i && Receive(o, i, op.volume, op.tank).Ok? {
      ReceivedHalfOver(o.lines[i], op.volume);
    }
  }

  /** Over every run, whatever the volumes, rounding takes a line at most half a thousandth past the cap. */
  lemma {:induction false} OvershootBounded(o: Order, ops: seq<Op>, i: nat)
    requires i < |o.lines| && HalfOver(o.lines[i])
    ensures i < |Run(o, ops).lines| && HalfOver(Run(o, ops).lines[i])
    decreases |ops|
  {
    if ops != [] {
      StepHalfOver(o, ops[0], i);
      OvershootBounded(Apply(o, ops[0]), ops[1..], i);
    }
  }

  predicate WholeVolumes(ops: seq<Op>) {
    forall k :: 0 <= k < |ops| && ops[k].DoReceive? ==> ops[k].volume == ops[k].volume.Floor as real
  }

  lemma WholeNotLifted(l: Line, x: real)
    requires x == x.Floor as real
    ensures !Lifted(l, x)
  {
    assert l.received as real + x == (l.received + x.Floor) as real;
  }

  /** Volumes in whole thousandths are never lifted. */
  lemma {:induction false} WholeVolumesStay(o: Order, ops: seq<Op>, i: nat)
    requires WholeVolumes(ops)
    ensures !Lifts(o, ops, i)
    decreases |ops|
  {
    if ops != [] {
      if LiftsNow(o, ops[0], i) {
        WholeNotLifted(o.lines[i], ops[0].volume);
        assert false;
      }
      WholeVolumesStay(Apply(o, ops[0]), ops[1..], i);
    }
  }

  /** 100.5 thousandths against an order of 100: accepted at the cap, stored above it. */
  lemma HalfThousandthPassesCap()
    ensures var o, ops := Order(Draft, [Line(100, 0)], [], 0),
        [DoTransition(Submitted), DoTransition(Confirmed), DoReceive(0, 100.5, TankState(true, true))];
      Fresh(o) && Run(o, ops).lines == [Line(100, 101)] && !WithinCap(Line(100, 101))
  {
    var o := Order(Draft, [Line(100, 0)], [], 0);
    var confirmed := o.(status := Confirmed);
    var receipt := DoReceive(0, 100.5, TankState(true, true));
    assert (100.5 + 0.5).Floor == 101;
    assert Apply(confirmed, receipt).lines == [Line(100, 101)];
    assert Run(confirmed, [receipt]) == Apply(confirmed, receipt);
    var late := [DoTransition(Confirmed), receipt];
    assert late[1..] == [receipt];
    var ops := [DoTransition(Submitted), DoTransition(Confirmed), receipt];
    assert ops[1..] == late;
  }

  /** An accepted receipt is recorded as short exactly when it leaves the line more than half a percent below its order,
      and as matched otherwise. */
  lemma MatchIs(o: Order, i: nat, x: real, tank: TankState)
    requires i < |o.lines| && Receive(o, i, x, tank).Ok?
    ensures var l, deliveries := o.lines[i], Receive(o, i, x, tank).value.deliveries;
      && |deliveries| == |o.deliveries| + 1 && deliveries[..|o.deliveries|] == o.deliveries
      && var d := deliveries[|o.deliveries|];
         && d.line == i && d.volume == Round(x)
         && d.verdict == if 1000.0 * (l.received as real + x) < 995.0 * l.ordered as real then Short else Matched
  {
  }

  /** A receipt is accepted exactly when the line is there, the order is open for receiving, the tank fits and has an
      opening balance, the volume is at least half a thousandth and the line stays within 100.5 percent of its order. */
  lemma AcceptedIff(o: Order, i: nat, x: real, tank: TankState)
    ensures Receive(o, i, x, tank).Ok?
       <==> && i < |o.lines| && (o.status.Confirmed? || o.status.PartiallyReceived?) && tank.fits && tank.hasOpening
            && x >= 0.5 && 1000.0 * (o.lines[i].received as real + x) <= 1005.0 * o.lines[i].ordered as real
  {
    if x < 0.5 {
      RoundMonotone(x, 0.5);
    }
  }

  // ---- Landed cost ----

  function RoundTo2(x: real): real {
    Round(x * 100.0) as real / 100.0
  }

  function RoundTo4(x: real): real {
    Round(x * 10000.0) as real / 10000.0
  }

  lemma RoundTo2Near(x: real)
    ensures -0.005 <= RoundTo2(x) - x <= 0.005
  {
    RoundNearest(x * 100.0);
  }

  lemma RoundTo4Near(x: real)
    ensures -0.00005 <= RoundTo4(x) - x <= 0.00005
  {
    RoundNearest(x * 10000.0);
  }

  lemma NonNegative(x: real, y: real)
    requires x >= 0.0 && y > 0.0
    ensures x * y >= 0.0
  {
  }

  lemma ScaledUp(a: real, b: real, off: real, volume: real, product: real)
    requires volume > 0.0 && a <= b + off && product == b * volume
    ensures a * volume <= product + off * volume
  {
    NonNegative(b + off - a, volume);
    assert (b + off - a) * volume == product + off * volume - a * volume;
  }

  lemma Spread(each: real, stored: real, volume: real, cost: real)
    requires volume > 0.0 && -0.00005 <= stored - each <= 0.00005 && each * volume == cost
    ensures -(0.00005 * volume) <= stored * volume - cost <= 0.00005 * volume
  {
    ScaledUp(stored, each, 0.00005, volume, cost);
    ScaledUp(each, stored, 0.00005, volume, stored * volume);
  }

  lemma SumOfErrors(product: real, cost: real, total: real, slack: real)
    requires -slack <= product - cost <= slack && -0.005 <= total - cost <= 0.005
    ensures -(0.005 + slack) <= product - total <= 0.005 + slack
  {
  }

  lemma Quotient(cost: real, volume: real)
    requires volume > 0.0
    ensures cost / volume * volume == cost
  {
  }

  /** A delivery stores its cost to two places and its cost per litre to four; whatever price, freight, duty and
      levies make up the cost, the two agree to within their rounding. */
  lemma LandedCostsAgree(cost: real, volume: real)
    requires volume > 0.0
    ensures -(0.005 + 0.00005 * volume) <= RoundTo4(cost / volume) * volume - RoundTo2(cost) <= 0.005 + 0.00005 * volume
  {
    RoundTo2Near(cost);
    RoundTo4Near(cost / volume);
    Quotient(cost, volume);
    Spread(cost / volume, RoundTo4(cost / volume), volume, cost);
    SumOfErrors(RoundTo4(cost / volume) * volume, cost, RoundTo2(cost), 0.00005 * volume);
  }

  // ---- The repository ----

  class PurchaseOrder {
    var status: Status
    var lines: seq<Line>
    var deliveries: seq<Delivery>
    var stock: int

    function View(): Order
      reads this
    {
      Order(status, lines, deliveries, stock)
    }

    constructor (lines: seq<Line>)
      ensures View() == Order(Draft, lines, [], 0)
    {
      status, this.lines, deliveries, stock := Draft, lines, [], 0;
    }

    /** One pass over the lines decides between received, partially received and confirmed. */
    method AdvanceStatus()
      modifies this`status
      ensures status == Advanced(lines)
    {
      var all, any := |lines| > 0, false;
      for i := 0 to |lines|
        invariant all <==> |lines| > 0 && forall j :: 0 <= j < i ==> Full(lines[j])
        invariant any <==> exists j :: 0 <= j < i && lines[j].received > 0
      {
        all := all && Full(lines[i]);
        any := any || lines[i].received > 0;
      }
      status := if all then Received else if any then PartiallyReceived else Confirmed;
    }

    method ReceiveGoodsReceipt(i: nat, x: real, tank: TankState) returns (r: Result<Match, Error>)
      modifies this
      ensures View() == Outcome(old(View()), Receive(old(View()), i, x, tank))
      ensures r.Ok? <==> Receive(old(View()), i, x, tank).Ok?
      ensures r.Err? ==> r.error == Receive(old(View()), i, x, tank).error
      ensures r.Ok? ==> r.value == MatchOf(old(lines)[i], x) && !r.value.Over?
    {
      if i >= |lines| {
        return Err(LineNotFound);
      }
      if !status.Confirmed? && !status.PartiallyReceived? {
        return Err(NotReceivable);
      }
      if !tank.fits {
        return Err(TankMismatch);
      }
      if Exceeds(lines[i], x) {
        return Err(OverReceipt);
      }
      var verdict := MatchOf(lines[i], x);
      if Round(x) <= 0 {
        return Err(BadVolume);
      }
      var before := View();
      deliveries := deliveries + [Delivery(i, Round(x), verdict)];
      lines := lines[i := lines[i].(received := Round(lines[i].received as real + x))];
      AdvanceStatus();
      if !tank.hasOpening {
        status, lines, deliveries := before.status, before.lines, before.deliveries;
        return Err(NoOpening);
      }
      stock := stock + Round(x);
      r := Ok(verdict);
    }

    method TransitionPurchaseOrder(to: Status) returns (ok: bool)
      modifies this`status
      ensures View() == Outcome(old(View()), Transition(old(View()), to))
      ensures ok <==> ValidTransition(old(status), to)
    {
      ok := ValidTransition(status, to);
      if ok {
        status := to;
      }
    }
  }
}

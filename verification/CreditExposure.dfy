/** Fuel authorizations, credit charges and payments against credit and spending limits.

Each operation holds the customer's row lock, so operations are atomic.  Amounts come in unrounded and are
stored in cents.  A hold is live while it is approved and not past its expiry.
 */
module CreditExposure {
  import opened Numeric
  import opened Wrappers

  datatype AuthStatus = Approved | Fulfilled | Expired | Cancelled | Voided

  datatype Auth = Auth(customer: nat, vehicle: Option<nat>, product: Option<nat>, amount: int, status: AuthStatus,
                       createdAt: int, expiry: int)

  datatype Window = Day | Week | Month

  datatype Cap = PerTransaction | PerWindow(window: Window)

  /** No customer, vehicle or product means any. */
  datatype Limit = Limit(customer: Option<nat>, vehicle: Option<nat>, product: Option<nat>, cap: Cap, max: int)

  datatype Customer = Customer(limit: int, blocked: bool)

  datatype Entry = Entry(customer: nat, amount: int)

  datatype State = State(customers: map<nat, Customer>, ledger: seq<Entry>, auths: seq<Auth>, now: int)

  /** Start of the calendar window a moment lies in. */
  type Calendar = (Window, int) -> int

  const HOUR := 3600

  const Start := State(map[], [], [], 0)

  ghost predicate IsCalendar(trunc: Calendar) {
    && (forall w, t :: trunc(w, t) <= t)
    && (forall w, t :: trunc(w, trunc(w, t)) == trunc(w, t))
    && (forall w, t, u :: t <= u ==> trunc(w, t) <= trunc(w, u))
  }

  // ---- Sums ----

  function Sum(auths: seq<Auth>, p: Auth -> bool): int {
    if auths == [] then 0
    else Sum(auths[..|auths| - 1], p) + if p(auths[|auths| - 1]) then auths[|auths| - 1].amount else 0
  }

  function Balance(ledger: seq<Entry>, c: nat): int {
    if ledger == [] then 0
    else
      var last := ledger[|ledger| - 1];
      Balance(ledger[..|ledger| - 1], c) + if last.customer == c then last.amount else 0
  }

  function Live(c: nat, now: int): Auth -> bool {
    (a: Auth) => a.customer == c && a.status.Approved? && a.expiry > now
  }

  function Held(c: nat): Auth -> bool {
    (a: Auth) => a.customer == c && a.status.Approved?
  }

  function Exposure(s: State, c: nat): int {
    Balance(s.ledger, c) + Sum(s.auths, Live(c, s.now))
  }

  predicate Counts(a: Auth) {
    a.status.Approved? || a.status.Fulfilled?
  }

  predicate Matches(want: Option<nat>, have: Option<nat>) {
    want.None? || want == have
  }

  /** Does the limit apply to this customer's request or authorization? */
  predicate InScope(l: Limit, c: nat, vehicle: Option<nat>, product: Option<nat>) {
    Matches(l.customer, Some(c)) && Matches(l.vehicle, vehicle) && Matches(l.product, product)
  }

  /** What the windowed check adds up: since the start of the current window. */
  function SpentSince(l: Limit, c: nat, from: int): Auth -> bool {
    (a: Auth) => a.customer == c && Counts(a) && Matches(l.vehicle, a.vehicle) && Matches(l.product, a.product)
      && a.createdAt >= from
  }

  /** Spending in the window that starts at `from`. */
  function SpentIn(trunc: Calendar, l: Limit, c: nat, w: Window, from: int): Auth -> bool {
    (a: Auth) => Concerns(l, c, a) && (a.status.Approved? || a.status.Fulfilled?) && trunc(w, a.createdAt) == from
  }

  /** An authorization of the customer, for the vehicle and the product the limit names, if it names any. */
  predicate Concerns(l: Limit, c: nat, a: Auth) {
    a.customer == c && (l.vehicle.Some? ==> a.vehicle == l.vehicle) && (l.product.Some? ==> a.product == l.product)
  }

  // ---- Operations ----

  datatype Decision = Allowed | UnknownCustomer | AccountBlocked | InsufficientCredit | LimitExceeded

  function WithoutExpired(a: Auth, c: nat, now: int): Auth {
    if a.customer == c && a.status.Approved? && a.expiry < now then a.(status := Expired) else a
  }

  function ExpireHolds(auths: seq<Auth>, c: nat, now: int): (out: seq<Auth>)
    ensures |out| == |auths| && forall i :: 0 <= i < |auths| ==> out[i] == WithoutExpired(auths[i], c, now)
  {
    seq(|auths|, i requires 0 <= i < |auths| => WithoutExpired(auths[i], c, now))
  }

  predicate Violates(trunc: Calendar, s: State, l: Limit, c: nat, vehicle: Option<nat>, product: Option<nat>,
                     amount: real) {
    InScope(l, c, vehicle, product) &&
    match l.cap
    case PerTransaction => amount > l.max as real
    case PerWindow(w) => amount + Sum(s.auths, SpentSince(l, c, trunc(w, s.now))) as real > l.max as real
  }

  function Decide(trunc: Calendar, limits: seq<Limit>, s: State, c: nat, vehicle: Option<nat>, product: Option<nat>,
                  amount: real): Decision {
    if c !in s.customers then UnknownCustomer
    else if s.customers[c].blocked then AccountBlocked
    else if amount > (s.customers[c].limit - Exposure(s, c)) as real then InsufficientCredit
    else if exists i :: 0 <= i < |limits| && Violates(trunc, s, limits[i], c, vehicle, product, amount)
      then LimitExceeded
    else Allowed
  }

  /** Release expired holds, decide, and hold the amount for an hour. */
  function Request(trunc: Calendar, limits: seq<Limit>, s: State, c: nat, vehicle: Option<nat>, product: Option<nat>,
                   amount: real): State {
    var cleaned := s.(auths := ExpireHolds(s.auths, c, s.now));
    if Decide(trunc, limits, cleaned, c, vehicle, product, amount).Allowed?
    then cleaned.(auths := cleaned.auths + [Auth(c, vehicle, product, Round(amount), Approved, s.now, s.now + HOUR)])
    else cleaned
  }

  /** A charge counts every approved hold, expired or not. */
  predicate ChargeAllowed(s: State, c: nat, amount: real) {
    && c in s.customers && !s.customers[c].blocked
    && (Balance(s.ledger, c) + Sum(s.auths, Held(c))) as real + amount <= s.customers[c].limit as real
  }

  function Charge(s: State, c: nat, amount: real): State {
    if ChargeAllowed(s, c, amount) then s.(ledger := s.ledger + [Entry(c, Round(amount))]) else s
  }

  function Pay(s: State, c: nat, amount: real): State {
    s.(ledger := s.ledger + [Entry(c, -Round(amount))])
  }

  function SetStatus(s: State, i: nat, from: set<AuthStatus>, to: AuthStatus): State {
    if i < |s.auths| && s.auths[i].status in from then s.(auths := s.auths[i := s.auths[i].(status := to)]) else s
  }

  datatype Op =
    | NewCustomer(customer: nat, limit: nat)
    | Block(customer: nat, blocked: bool)
    | DoRequest(customer: nat, vehicle: Option<nat>, product: Option<nat>, amount: real)
    | DoCharge(customer: nat, amount: real)
    | DoPay(customer: nat, amount: real)
    | Fulfill(auth: nat)
    | Cancel(auth: nat)
    | Void(auth: nat)
    | Tick(seconds: nat)

  function Apply(trunc: Calendar, limits: seq<Limit>, s: State, op: Op): State {
    match op
    case NewCustomer(c, limit) => if c in s.customers then s
      else s.(customers := s.customers[c := Customer(limit, false)])
    case Block(c, blocked) => if c in s.customers
      then s.(customers := s.customers[c := s.customers[c].(blocked := blocked)]) else s
    case DoRequest(c, vehicle, product, amount) => Request(trunc, limits, s, c, vehicle, product, amount)
    case DoCharge(c, amount) => Charge(s, c, amount)
    case DoPay(c, amount) => if c in s.customers then Pay(s, c, amount) else s
    case Fulfill(i) => SetStatus(s, i, {Approved}, Fulfilled)
    case Cancel(i) => SetStatus(s, i, {Approved}, Cancelled)
    case Void(i) => SetStatus(s, i, {Approved, Fulfilled}, Voided)
    case Tick(seconds) => s.(now := s.now + seconds)
  }

  predicate NonNegative(op: Op) {
    (op.DoRequest? || op.DoCharge? || op.DoPay?) ==> op.amount >= 0.0
  }

  function Run(trunc: Calendar, limits: seq<Limit>, s: State, ops: seq<Op>): State
    decreases |ops|
  {
    if ops == [] then s else Run(trunc, limits, Apply(trunc, limits, s, ops[0]), ops[1..])
  }

  // ---- Invariant ----

  ghost predicate AuthsOk(s: State) {
    forall i :: 0 <= i < |s.auths| ==> s.auths[i].amount >= 0 && s.auths[i].createdAt <= s.now
  }

  /** Charges and holds only ever belong to known customers. */
  ghost predicate Known(s: State) {
    && (forall i :: 0 <= i < |s.auths| ==> s.auths[i].customer in s.customers)
    && (forall i :: 0 <= i < |s.ledger| ==> s.ledger[i].customer in s.customers)
  }

  ghost predicate WithinLimit(s: State, c: nat) {
    c in s.customers ==> Exposure(s, c) <= s.customers[c].limit
  }

  /** A negative cap lets nothing through. */
  function Most(l: Limit): int {
    if l.max < 0 then 0 else l.max
  }

  /** The limit's cap holds for this customer: each authorization, or each calendar window. */
  ghost predicate CapHolds(trunc: Calendar, auths: seq<Auth>, l: Limit, c: nat) {
    l.customer.None? || l.customer.value == c ==>
      match l.cap
      case PerTransaction =>
        forall i :: 0 <= i < |auths| && Concerns(l, c, auths[i]) ==> auths[i].amount <= Most(l)
      case PerWindow(w) => forall from :: Sum(auths, SpentIn(trunc, l, c, w, from)) <= Most(l)
  }

  ghost predicate Inv(trunc: Calendar, limits: seq<Limit>, s: State) {
    && AuthsOk(s) && Known(s)
    && (forall c :: WithinLimit(s, c))
    && (forall i, c :: 0 <= i < |limits| ==> CapHolds(trunc, s.auths, limits[i], c))
  }

  // ---- Sums under the operations ----

  lemma SumSnoc(auths: seq<Auth>, a: Auth, p: Auth -> bool)
    ensures Sum(auths + [a], p) == Sum(auths, p) + if p(a) then a.amount else 0
  {
    assert (auths + [a])[..|auths|] == auths;
  }

  lemma BalanceSnoc(ledger: seq<Entry>, e: Entry, c: nat)
    ensures Balance(ledger + [e], c) == Balance(ledger, c) + if e.customer == c then e.amount else 0
  {
    assert (ledger + [e])[..|ledger|] == ledger;
  }

  lemma {:induction false} SumShrinks(before: seq<Auth>, after: seq<Auth>, p: Auth -> bool, q: Auth -> bool)
    requires |before| == |after|
    requires forall i :: 0 <= i < |before| ==>
        before[i].amount >= 0 && before[i].amount == after[i].amount && (q(after[i]) ==> p(before[i]))
    ensures Sum(after, q) <= Sum(before, p)
  {
    if before != [] {
      SumShrinks(before[..|before| - 1], after[..|after| - 1], p, q);
    }
  }

  lemma {:induction false} SumSame(auths: seq<Auth>, p: Auth -> bool, q: Auth -> bool)
    requires forall i :: 0 <= i < |auths| ==> p(auths[i]) == q(auths[i])
    ensures Sum(auths, p) == Sum(auths, q)
  {
    if auths != [] {
      SumSame(auths[..|auths| - 1], p, q);
    }
  }

  lemma {:induction false} SumNone(auths: seq<Auth>, p: Auth -> bool)
    requires forall i :: 0 <= i < |auths| ==> !p(auths[i])
    ensures Sum(auths, p) == 0
  {
    if auths != [] {
      SumNone(auths[..|auths| - 1], p);
    }
  }

  /** Rounding never takes an amount past a whole number of cents that it fits under. */
  lemma RoundFits(x: real, n: int)
    requires x <= n as real
    ensures Round(x) <= n
  {
    RoundMonotone(x, n as real);
    RoundOfStored(n);
  }

  /** Statuses only move away from holding and from counting. */
  predicate Moves(a: Auth, b: Auth) {
    && b == a.(status := b.status)
    && (b.status.Approved? ==> a.status.Approved?)
    && (Counts(b) ==> Counts(a))
  }

  ghost predicate Released(s: State, s': State) {
    && s' == s.(auths := s'.auths, now := s'.now) && s.now <= s'.now
    && |s.auths| == |s'.auths| && (forall i :: 0 <= i < |s.auths| ==> Moves(s.auths[i], s'.auths[i]))
  }

  // ---- Every operation keeps it ----

  lemma SpentBefore(trunc: Calendar, l: Limit, c: nat, from: int, a: Auth, b: Auth)
    requires l.cap.PerWindow? && Moves(a, b) && SpentIn(trunc, l, c, l.cap.window, from)(b)
    ensures SpentIn(trunc, l, c, l.cap.window, from)(a)
  {
    assert Counts(b);
    assert Concerns(l, c, b) && Concerns(l, c, a);
    assert a.createdAt == b.createdAt;
  }

  lemma ReleasedKeepsCap(trunc: Calendar, before: seq<Auth>, after: seq<Auth>, l: Limit, c: nat)
    requires |before| == |after| && forall i :: 0 <= i < |before| ==>
        before[i].amount >= 0 && Moves(before[i], after[i])
    requires CapHolds(trunc, before, l, c)
    ensures CapHolds(trunc, after, l, c)
  {
    if Matches(l.customer, Some(c)) && l.cap.PerWindow? {
      forall from ensures Sum(after, SpentIn(trunc, l, c, l.cap.window, from)) <= Most(l) {
        var spent := SpentIn(trunc, l, c, l.cap.window, from);
        forall i | 0 <= i < |before| && spent(after[i]) ensures spent(before[i]) {
          SpentBefore(trunc, l, c, from, before[i], after[i]);
        }
        SumShrinks(before, after, spent, spent);
      }
    }
  }

  lemma ReleasedKeeps(trunc: Calendar, limits: seq<Limit>, s: State, s': State)
    requires Inv(trunc, limits, s) && Released(s, s')
    ensures Inv(trunc, limits, s')
  {
    forall c ensures WithinLimit(s', c) {
      assert WithinLimit(s, c);
      SumShrinks(s.auths, s'.auths, Live(c, s.now), Live(c, s'.now));
    }
    forall i, c | 0 <= i < |limits| ensures CapHolds(trunc, s'.auths, limits[i], c) {
      ReleasedKeepsCap(trunc, s.auths, s'.auths, limits[i], c);
    }
  }

  /** For authorizations up to now, "since the window began" and "in this window" are the same. */
  lemma WindowIsSince(trunc: Calendar, s: State, l: Limit, c: nat, w: Window)
    requires IsCalendar(trunc) && AuthsOk(s)
    ensures Sum(s.auths, SpentIn(trunc, l, c, w, trunc(w, s.now))) == Sum(s.auths, SpentSince(l, c, trunc(w, s.now)))
  {
    forall i | 0 <= i < |s.auths|
      ensures SpentIn(trunc, l, c, w, trunc(w, s.now))(s.auths[i]) == SpentSince(l, c, trunc(w, s.now))(s.auths[i])
    {
      var t := s.auths[i].createdAt;
      assert t <= s.now && trunc(w, t) <= t && trunc(w, t) <= trunc(w, s.now);
      if t >= trunc(w, s.now) {
        assert trunc(w, trunc(w, s.now)) <= trunc(w, t);
      }
    }
    SumSame(s.auths, SpentIn(trunc, l, c, w, trunc(w, s.now)), SpentSince(l, c, trunc(w, s.now)));
  }

  /** An authorization that does not violate the limit keeps its cap. */
  lemma AllowedKeepsCap(trunc: Calendar, s: State, l: Limit, c: nat, a: Auth, amount: real)
    requires IsCalendar(trunc) && AuthsOk(s) && CapHolds(trunc, s.auths, l, c)
    requires a.amount == Round(amount) && amount >= 0.0 && a.createdAt == s.now
    requires !Violates(trunc, s, l, a.customer, a.vehicle, a.product, amount)
    ensures CapHolds(trunc, s.auths + [a], l, c)
  {
    if Matches(l.customer, Some(c)) {
      if a.customer == c && InScope(l, c, a.vehicle, a.product) {
        AllowedInScope(trunc, s, l, c, a, amount);
      } else if l.cap.PerWindow? {
        forall from ensures Sum(s.auths + [a], SpentIn(trunc, l, c, l.cap.window, from)) <= Most(l) {
          SumSnoc(s.auths, a, SpentIn(trunc, l, c, l.cap.window, from));
        }
      }
    }
  }

  lemma AllowedInScope(trunc: Calendar, s: State, l: Limit, c: nat, a: Auth, amount: real)
    requires IsCalendar(trunc) && AuthsOk(s) && CapHolds(trunc, s.auths, l, c)
    requires a.customer == c && InScope(l, c, a.vehicle, a.product) && a.amount == Round(amount) && a.createdAt == s.now
    requires !Violates(trunc, s, l, c, a.vehicle, a.product, amount)
    ensures CapHolds(trunc, s.auths + [a], l, c)
  {
    match l.cap
    case PerTransaction => RoundFits(amount, l.max);
    case PerWindow(w) =>
      var current := trunc(w, s.now);
      var spent := Sum(s.auths, SpentSince(l, c, current));
      RoundFits(amount, l.max - spent);
      WindowIsSince(trunc, s, l, c, w);
      forall from ensures Sum(s.auths + [a], SpentIn(trunc, l, c, w, from)) <= Most(l) {
        SumSnoc(s.auths, a, SpentIn(trunc, l, c, w, from));
        assert Sum(s.auths, SpentIn(trunc, l, c, w, from)) <= Most(l);
      }
  }

  lemma AppendKeepsExposure(s: State, a: Auth, amount: real)
    requires a.customer in s.customers && amount <= (s.customers[a.customer].limit - Exposure(s, a.customer)) as real
    requires a.amount == Round(amount) && forall c :: WithinLimit(s, c)
    ensures forall c :: WithinLimit(s.(auths := s.auths + [a]), c)
  {
    var s' := s.(auths := s.auths + [a]);
    forall c ensures WithinLimit(s', c) {
      assert WithinLimit(s, c);
      SumSnoc(s.auths, a, Live(c, s.now));
      if c == a.customer {
        RoundFits(amount, s.customers[c].limit - Exposure(s, c));
      }
    }
  }

  lemma AppendKeeps(trunc: Calendar, limits: seq<Limit>, s: State, c: nat, vehicle: Option<nat>, product: Option<nat>,
                    amount: real)
    requires IsCalendar(trunc) && Inv(trunc, limits, s) && amount >= 0.0
    requires Decide(trunc, limits, s, c, vehicle, product, amount).Allowed?
    ensures Inv(trunc, limits,
        s.(auths := s.auths + [Auth(c, vehicle, product, Round(amount), Approved, s.now, s.now + HOUR)]))
  {
    var a := Auth(c, vehicle, product, Round(amount), Approved, s.now, s.now + HOUR);
    AppendKeepsExposure(s, a, amount);
    RoundMonotone(0.0, amount);
    forall i, k | 0 <= i < |limits| ensures CapHolds(trunc, s.auths + [a], limits[i], k) {
      AllowedKeepsCap(trunc, s, limits[i], k, a, amount);
    }
  }

  lemma RequestKeeps(trunc: Calendar, limits: seq<Limit>, s: State, c: nat, vehicle: Option<nat>,
                     product: Option<nat>, amount: real)
    requires IsCalendar(trunc) && Inv(trunc, limits, s) && amount >= 0.0
    ensures Inv(trunc, limits, Request(trunc, limits, s, c, vehicle, product, amount))
  {
    var cleaned := s.(auths := ExpireHolds(s.auths, c, s.now));
    ReleasedKeeps(trunc, limits, s, cleaned);
    if Decide(trunc, limits, cleaned, c, vehicle, product, amount).Allowed? {
      AppendKeeps(trunc, limits, cleaned, c, vehicle, product, amount);
    }
  }

  lemma ChargeKeeps(s: State, k: nat, amount: real, c: nat)
    requires AuthsOk(s) && WithinLimit(s, c)
    ensures WithinLimit(Charge(s, k, amount), c)
  {
    if ChargeAllowed(s, k, amount) {
      BalanceSnoc(s.ledger, Entry(k, Round(amount)), c);
      if c == k {
        SumShrinks(s.auths, s.auths, Held(c), Live(c, s.now));
        RoundFits(amount, s.customers[c].limit - Balance(s.ledger, c) - Sum(s.auths, Held(c)));
      }
    }
  }

  lemma PayKeeps(s: State, k: nat, amount: real, c: nat)
    requires WithinLimit(s, c) && amount >= 0.0
    ensures WithinLimit(Pay(s, k, amount), c)
  {
    BalanceSnoc(s.ledger, Entry(k, -Round(amount)), c);
    RoundMonotone(0.0, amount);
  }

  lemma {:induction false} BalanceNone(ledger: seq<Entry>, c: nat)
    requires forall i :: 0 <= i < |ledger| ==> ledger[i].customer != c
    ensures Balance(ledger, c) == 0
  {
    if ledger != [] {
      BalanceNone(ledger[..|ledger| - 1], c);
    }
  }

  lemma CustomerKeeps(s: State, s': State, c: nat)
    requires Known(s) && WithinLimit(s, c) && s' == s.(customers := s'.customers)
    requires c in s'.customers && c in s.customers ==> s'.customers[c].limit == s.customers[c].limit
    requires c in s'.customers && c !in s.customers ==> s'.customers[c].limit >= 0
    ensures WithinLimit(s', c)
  {
    if c !in s.customers {
      BalanceNone(s.ledger, c);
      SumNone(s.auths, Live(c, s.now));
    }
  }

  lemma ApplyKeeps(trunc: Calendar, limits: seq<Limit>, s: State, op: Op)
    requires IsCalendar(trunc) && Inv(trunc, limits, s) && NonNegative(op)
    ensures Inv(trunc, limits, Apply(trunc, limits, s, op))
  {
    var s' := Apply(trunc, limits, s, op);
    match op
    case NewCustomer(k, limit) =>
      forall c ensures WithinLimit(s', c) { assert WithinLimit(s, c); CustomerKeeps(s, s', c); }
    case Block(k, blocked) => forall c ensures WithinLimit(s', c) { assert WithinLimit(s, c); CustomerKeeps(s, s', c); }
    case DoRequest(c, vehicle, product, amount) => RequestKeeps(trunc, limits, s, c, vehicle, product, amount);
    case DoCharge(k, amount) =>
      forall c ensures WithinLimit(s', c) { assert WithinLimit(s, c); ChargeKeeps(s, k, amount, c); }
    case DoPay(k, amount) =>
      forall c ensures WithinLimit(s', c) { assert WithinLimit(s, c); PayKeeps(s, k, amount, c); }
    case Fulfill(i) => ReleasedKeeps(trunc, limits, s, s');
    case Cancel(i) => ReleasedKeeps(trunc, limits, s, s');
    case Void(i) => ReleasedKeeps(trunc, limits, s, s');
    case Tick(seconds) => ReleasedKeeps(trunc, limits, s, s');
  }

  lemma {:induction false} RunKeeps(trunc: Calendar, limits: seq<Limit>, s: State, ops: seq<Op>)
    requires IsCalendar(trunc) && Inv(trunc, limits, s) && forall i :: 0 <= i < |ops| ==> NonNegative(ops[i])
    ensures Inv(trunc, limits, Run(trunc, limits, s, ops))
    decreases |ops|
  {
    if ops != [] {
      ApplyKeeps(trunc, limits, s, ops[0]);
      RunKeeps(trunc, limits, Apply(trunc, limits, s, ops[0]), ops[1..]);
    }
  }

  /** The customer's approved holds; given a time, only those that expire after it. */
  function OnHold(auths: seq<Auth>, c: nat, now: Option<int>): int {
    if auths == [] then 0
    else
      var rest, a := OnHold(auths[..|auths| - 1], c, now), auths[|auths| - 1];
      if a.customer == c && a.status == Approved && (now.Some? ==> now.value < a.expiry) then rest + a.amount else rest
  }

  lemma {:induction false} HoldsAre(auths: seq<Auth>, c: nat, now: int)
    ensures Sum(auths, Live(c, now)) == OnHold(auths, c, Some(now)) && Sum(auths, Held(c)) == OnHold(auths, c, None)
  {
    if auths != [] {
      HoldsAre(auths[..|auths| - 1], c, now);
    }
  }

  /** No run takes a customer's balance plus live holds over the credit limit, nor an in-scope authorization, nor what
      was approved and fulfilled in any calendar window, over the cap of any limit. */
  lemma CreditSafety(trunc: Calendar, limits: seq<Limit>, ops: seq<Op>, c: nat, i: nat)
    requires IsCalendar(trunc) && (forall j :: 0 <= j < |ops| ==> NonNegative(ops[j]))
    ensures var s := Run(trunc, limits, Start, ops);
      && (c in s.customers ==> Balance(s.ledger, c) + OnHold(s.auths, c, Some(s.now)) <= s.customers[c].limit)
      && (i < |limits| ==> CapHolds(trunc, s.auths, limits[i], c))
  {
    var s := Run(trunc, limits, Start, ops);
    HoldsAre(s.auths, c, s.now);
    RunKeeps(trunc, limits, Start, ops);
    assert WithinLimit(s, c);
  }

  // ---- Nothing is refused that would fit ----

  lemma {:induction false} SumPositive(auths: seq<Auth>, p: Auth -> bool)
    requires forall i :: 0 <= i < |auths| ==> auths[i].amount >= 0
    ensures Sum(auths, p) >= 0
  {
    if auths != [] {
      SumPositive(auths[..|auths| - 1], p);
    }
  }

  /** A hold that keeps the cap does not violate the limit. */
  lemma KeptCapAllows(trunc: Calendar, s: State, l: Limit, a: Auth)
    requires IsCalendar(trunc) && AuthsOk(s) && a.amount > 0 && a.status.Approved? && a.createdAt == s.now
    requires CapHolds(trunc, s.auths + [a], l, a.customer)
    ensures !Violates(trunc, s, l, a.customer, a.vehicle, a.product, a.amount as real)
  {
    var c := a.customer;
    if InScope(l, c, a.vehicle, a.product) {
      match l.cap
      case PerTransaction => assert (s.auths + [a])[|s.auths|] == a;
      case PerWindow(w) =>
        var now := trunc(w, s.now);
        WindowIsSince(trunc, s, l, c, w);
        SumSnoc(s.auths, a, SpentIn(trunc, l, c, w, now));
        SumPositive(s.auths, SpentIn(trunc, l, c, w, now));
        assert Sum(s.auths + [a], SpentIn(trunc, l, c, w, now)) <= Most(l);
    }
  }

  lemma CapLeft(trunc: Calendar, s: State, l: Limit, a: Auth)
    requires IsCalendar(trunc) && AuthsOk(s) && CapHolds(trunc, s.auths, l, a.customer)
    requires a.amount > 0 && a.status.Approved? && a.createdAt == s.now
    ensures Violates(trunc, s, l, a.customer, a.vehicle, a.product, a.amount as real)
       <==> !CapHolds(trunc, s.auths + [a], l, a.customer)
  {
    RoundOfStored(a.amount);
    if CapHolds(trunc, s.auths + [a], l, a.customer) {
      KeptCapAllows(trunc, s, l, a);
    }
    if !Violates(trunc, s, l, a.customer, a.vehicle, a.product, a.amount as real) {
      AllowedKeepsCap(trunc, s, l, a.customer, a, a.amount as real);
    }
  }

  lemma CreditLeft(s: State, a: Auth)
    requires a.customer in s.customers && a.status.Approved? && a.expiry > s.now
    ensures a.amount as real > (s.customers[a.customer].limit - Exposure(s, a.customer)) as real
       <==> !WithinLimit(s.(auths := s.auths + [a]), a.customer)
  {
    SumSnoc(s.auths, a, Live(a.customer, s.now));
  }

  /** A request in whole cents by a customer who is not blocked is allowed if and only if, with its hold in place, the
      customer stays within the credit limit and within the cap of every limit. */
  lemma AllowedIff(trunc: Calendar, limits: seq<Limit>, s: State, c: nat, vehicle: Option<nat>, product: Option<nat>,
                   n: nat)
    requires IsCalendar(trunc) && Inv(trunc, limits, s) && n > 0 && c in s.customers && !s.customers[c].blocked
    ensures var s' := s.(auths := s.auths + [Auth(c, vehicle, product, n, Approved, s.now, s.now + HOUR)]);
      Decide(trunc, limits, s, c, vehicle, product, n as real).Allowed?
      <==> WithinLimit(s', c) && forall i :: 0 <= i < |limits| ==> CapHolds(trunc, s'.auths, limits[i], c)
  {
    var a := Auth(c, vehicle, product, n, Approved, s.now, s.now + HOUR);
    CreditLeft(s, a);
    forall i | 0 <= i < |limits|
      ensures Violates(trunc, s, limits[i], c, vehicle, product, n as real)
         <==> !CapHolds(trunc, s.auths + [a], limits[i], c)
    {
      CapLeft(trunc, s, limits[i], a);
    }
  }

  // ---- What the operations record ----

  /** A charge is posted exactly when the customer is known and not blocked and the credit left by the balance and by
      every approved hold covers it; then the balance rises by the rounded amount, and nobody else's changes. */
  lemma ChargeRecords(s: State, c: nat, amount: real, k: nat)
    ensures var used, after := Balance(s.ledger, c) + OnHold(s.auths, c, None), Charge(s, c, amount);
      var posted := c in s.customers && !s.customers[c].blocked && amount <= (s.customers[c].limit - used) as real;
      && Balance(after.ledger, k) == Balance(s.ledger, k) + (if posted && k == c then Round(amount) else 0)
      && |after.ledger| == |s.ledger| + (if posted then 1 else 0)
      && (posted <==> ChargeAllowed(s, c, amount))
  {
    HoldsAre(s.auths, c, s.now);
    BalanceSnoc(s.ledger, Entry(c, Round(amount)), k);
  }

  lemma PaymentRecords(s: State, c: nat, amount: real, k: nat)
    ensures Balance(Pay(s, c, amount).ledger, k) == Balance(s.ledger, k) - (if k == c then Round(amount) else 0)
  {
    BalanceSnoc(s.ledger, Entry(c, -Round(amount)), k);
  }

  /** Charges a run accepts for a customer, and its payments. */
  function Charged(trunc: Calendar, limits: seq<Limit>, s: State, ops: seq<Op>, c: nat): int
    decreases |ops|
  {
    if ops == [] then 0
    else
      var later, op := Charged(trunc, limits, Apply(trunc, limits, s, ops[0]), ops[1..], c), ops[0];
      later + if op.DoCharge? && op.customer == c && ChargeAllowed(s, c, op.amount) then Round(op.amount) else 0
  }

  function Paid(trunc: Calendar, limits: seq<Limit>, s: State, ops: seq<Op>, c: nat): int
    decreases |ops|
  {
    if ops == [] then 0
    else
      var later, op := Paid(trunc, limits, Apply(trunc, limits, s, ops[0]), ops[1..], c), ops[0];
      later + if op.DoPay? && op.customer == c && c in s.customers then Round(op.amount) else 0
  }

  lemma StepRecords(trunc: Calendar, limits: seq<Limit>, s: State, op: Op, c: nat)
    ensures Balance(Apply(trunc, limits, s, op).ledger, c) == Balance(s.ledger, c)
      + (if op.DoCharge? && op.customer == c && ChargeAllowed(s, c, op.amount) then Round(op.amount) else 0)
      - (if op.DoPay? && op.customer == c && c in s.customers then Round(op.amount) else 0)
  {
    if op.DoCharge? {
      ChargeRecords(s, op.customer, op.amount, c);
    } else if op.DoPay? {
      PaymentRecords(s, op.customer, op.amount, c);
    }
  }

  lemma {:induction false} RunRecords(trunc: Calendar, limits: seq<Limit>, s: State, ops: seq<Op>, c: nat)
    ensures Balance(Run(trunc, limits, s, ops).ledger, c)
         == Balance(s.ledger, c) + Charged(trunc, limits, s, ops, c) - Paid(trunc, limits, s, ops, c)
    decreases |ops|
  {
    if ops != [] {
      StepRecords(trunc, limits, s, ops[0], c);
      RunRecords(trunc, limits, Apply(trunc, limits, s, ops[0]), ops[1..], c);
    }
  }

  /** Over every run a customer owes what was charged and accepted, less what was paid. */
  lemma BalanceIsRecorded(trunc: Calendar, limits: seq<Limit>, ops: seq<Op>, c: nat)
    ensures Balance(Run(trunc, limits, Start, ops).ledger, c)
         == Charged(trunc, limits, Start, ops, c) - Paid(trunc, limits, Start, ops, c)
  {
    RunRecords(trunc, limits, Start, ops, c);
  }

  lemma {:induction false} ReleaseKeepsLive(auths: seq<Auth>, c: nat, now: int, k: nat, at: int)
    requires now <= at
    ensures Sum(ExpireHolds(auths, c, now), Live(k, at)) == Sum(auths, Live(k, at))
  {
    if auths != [] {
      var before := auths[..|auths| - 1];
      ReleaseKeepsLive(before, c, now, k, at);
      assert ExpireHolds(auths, c, now)[..|auths| - 1] == ExpireHolds(before, c, now);
    }
  }

  /** An allowed request holds the rounded amount against its customer, from now on and for one hour; a refused one
      holds nothing, and releasing expired holds takes nothing live away. */
  lemma HoldLasts(trunc: Calendar, limits: seq<Limit>, s: State, c: nat, vehicle: Option<nat>, product: Option<nat>,
                  amount: real, k: nat, at: int)
    requires s.now <= at
    ensures var cleaned := s.(auths := ExpireHolds(s.auths, c, s.now));
      var allowed := Decide(trunc, limits, cleaned, c, vehicle, product, amount).Allowed?;
      Sum(Request(trunc, limits, s, c, vehicle, product, amount).auths, Live(k, at))
      == Sum(s.auths, Live(k, at)) + if allowed && k == c && at < s.now + 3600 then Round(amount) else 0
  {
    ReleaseKeepsLive(s.auths, c, s.now, k, at);
    var hold := Auth(c, vehicle, product, Round(amount), Approved, s.now, s.now + HOUR);
    SumSnoc(ExpireHolds(s.auths, c, s.now), hold, Live(k, at));
  }

  /** A hold counts for one hour of the clock, whatever else is on hold. */
  lemma LapsesAfterAnHour(trunc: Calendar, limits: seq<Limit>, s: State, c: nat, amount: real, seconds: nat, k: nat)
    ensures var cleaned := s.(auths := ExpireHolds(s.auths, c, s.now));
      var allowed := Decide(trunc, limits, cleaned, c, None, None, amount).Allowed?;
      var requested := Apply(trunc, limits, s, DoRequest(c, None, None, amount));
      Exposure(Apply(trunc, limits, requested, Tick(seconds)), k)
      == Exposure(s.(now := s.now + seconds), k) + if allowed && k == c && seconds < 3600 then Round(amount) else 0
  {
    var at, requested := s.now + seconds, Request(trunc, limits, s, c, None, None, amount);
    HoldLasts(trunc, limits, s, c, None, None, amount, k, at);
    RequestKeepsLedger(trunc, limits, s, c, amount);
    TickIs(trunc, limits, s, requested, seconds, k, Sum(requested.auths, Live(k, at)) - Sum(s.auths, Live(k, at)));
  }

  lemma TickIs(trunc: Calendar, limits: seq<Limit>, s: State, later: State, seconds: nat, k: nat, held: int)
    requires later.ledger == s.ledger && later.now == s.now
    requires Sum(later.auths, Live(k, s.now + seconds)) == Sum(s.auths, Live(k, s.now + seconds)) + held
    ensures Exposure(Apply(trunc, limits, later, Tick(seconds)), k) == Exposure(s.(now := s.now + seconds), k) + held
  {
  }

  lemma RequestKeepsLedger(trunc: Calendar, limits: seq<Limit>, s: State, c: nat, amount: real)
    ensures var s' := Request(trunc, limits, s, c, None, None, amount); s'.ledger == s.ledger && s'.now == s.now
  {
  }

  // ---- The life of an authorization ----

  predicate Overdue(a: Auth, op: Op, now: int) {
    op.DoRequest? && op.customer == a.customer && a.expiry < now
  }

  /** An authorization keeps all but its status.  It stops being approved exactly when it is fulfilled, cancelled or
      voided, or when its customer asks again after it expired; after that only a fulfilled one changes, by voiding. */
  lemma LifeOfAuth(trunc: Calendar, limits: seq<Limit>, s: State, op: Op, i: nat)
    requires i < |s.auths|
    ensures i < |Apply(trunc, limits, s, op).auths|
    ensures var a, b := s.auths[i], Apply(trunc, limits, s, op).auths[i];
      && b == a.(status := b.status)
      && (b.status.Approved?
          <==> a.status.Approved? && op !in {Fulfill(i), Cancel(i), Void(i)} && !Overdue(a, op, s.now))
      && (b.status.Fulfilled? <==> (a.status.Approved? && op == Fulfill(i)) || (a.status.Fulfilled? && op != Void(i)))
      && (b.status.Cancelled? <==> a.status.Cancelled? || (a.status.Approved? && op == Cancel(i)))
      && (b.status.Voided? <==> a.status.Voided? || ((a.status.Approved? || a.status.Fulfilled?) && op == Void(i)))
  {
  }

  /** Over every run an authorization that is no longer approved never is again, so it is fulfilled at most once. */
  lemma {:induction false} NeverRevived(trunc: Calendar, limits: seq<Limit>, s: State, ops: seq<Op>, i: nat)
    requires i < |s.auths| && !s.auths[i].status.Approved?
    ensures i < |Run(trunc, limits, s, ops).auths|
    ensures var b := Run(trunc, limits, s, ops).auths[i];
      && !b.status.Approved? && (b.status.Fulfilled? ==> s.auths[i].status.Fulfilled?)
      && b == s.auths[i].(status := b.status)
    decreases |ops|
  {
    if ops != [] {
      LifeOfAuth(trunc, limits, s, ops[0], i);
      NeverRevived(trunc, limits, Apply(trunc, limits, s, ops[0]), ops[1..], i);
    }
  }

  // ---- Accounts ----

  /** A new customer can be charged in whole cents exactly up to the limit. */
  lemma NewAccount(trunc: Calendar, limits: seq<Limit>, s: State, c: nat, limit: nat, n: nat)
    requires Inv(trunc, limits, s) && c !in s.customers
    ensures ChargeAllowed(Apply(trunc, limits, s, NewCustomer(c, limit)), c, n as real) <==> n <= limit
  {
    BalanceNone(s.ledger, c);
    SumNone(s.auths, Held(c));
  }

  lemma {:induction false} RefusedWhileBlocked(trunc: Calendar, limits: seq<Limit>, s: State, ops: seq<Op>, c: nat)
    requires c in s.customers && s.customers[c].blocked
    requires forall i :: 0 <= i < |ops| ==> ops[i] != Block(c, false)
    ensures var s' := Run(trunc, limits, s, ops);
      && Charged(trunc, limits, s, ops, c) == 0
      && |s.auths| <= |s'.auths| && forall i :: |s.auths| <= i < |s'.auths| ==> s'.auths[i].customer != c
    decreases |ops|
  {
    if ops != [] {
      var next := Apply(trunc, limits, s, ops[0]);
      BlockedStep(trunc, limits, s, ops[0], c);
      RefusedWhileBlocked(trunc, limits, next, ops[1..], c);
      forall i | |s.auths| <= i < |Run(trunc, limits, next, ops[1..]).auths|
        ensures Run(trunc, limits, next, ops[1..]).auths[i].customer != c
      {
        if i < |next.auths| {
          CustomerStays(trunc, limits, next, ops[1..], i);
        }
      }
    }
  }

  lemma BlockedStep(trunc: Calendar, limits: seq<Limit>, s: State, op: Op, c: nat)
    requires c in s.customers && s.customers[c].blocked && op != Block(c, false)
    ensures var s' := Apply(trunc, limits, s, op);
      && c in s'.customers && s'.customers[c].blocked && !ChargeAllowed(s, c, if op.DoCharge? then op.amount else 0.0)
      && |s.auths| <= |s'.auths| && forall i :: |s.auths| <= i < |s'.auths| ==> s'.auths[i].customer != c
  {
  }

  lemma {:induction false} CustomerStays(trunc: Calendar, limits: seq<Limit>, s: State, ops: seq<Op>, i: nat)
    requires i < |s.auths|
    ensures var s' := Run(trunc, limits, s, ops); i < |s'.auths| && s'.auths[i].customer == s.auths[i].customer
    decreases |ops|
  {
    if ops != [] {
      LifeOfAuth(trunc, limits, s, ops[0], i);
      CustomerStays(trunc, limits, Apply(trunc, limits, s, ops[0]), ops[1..], i);
    }
  }

  /** From the moment a customer is blocked until they are unblocked nothing is charged to them and no hold is made for
      them; unblocking undoes the blocking. */
  lemma BlockedIsRefused(trunc: Calendar, limits: seq<Limit>, s: State, ops: seq<Op>, c: nat)
    requires c in s.customers && forall i :: 0 <= i < |ops| ==> ops[i] != Block(c, false)
    ensures var blocked := Apply(trunc, limits, s, Block(c, true));
      var s' := Run(trunc, limits, blocked, ops);
      && Charged(trunc, limits, blocked, ops, c) == 0
      && |s.auths| <= |s'.auths| && (forall i :: |s.auths| <= i < |s'.auths| ==> s'.auths[i].customer != c)
      && (!s.customers[c].blocked ==> Apply(trunc, limits, blocked, Block(c, false)) == s)
  {
    var blocked := Apply(trunc, limits, s, Block(c, true));
    RefusedWhileBlocked(trunc, limits, blocked, ops, c);
    assert s.customers[c := s.customers[c]] == s.customers;
  }

  // ---- The repositories ----

  class CreditDesk {
    var customers: map<nat, Customer>
    var ledger: seq<Entry>
    var auths: seq<Auth>
    var now: int

    function View(): State
      reads this
    {
      State(customers, ledger, auths, now)
    }

    constructor ()
      ensures View() == Start
    {
      customers, ledger, auths, now := map[], [], [], 0;
    }

    method ReleaseExpired(c: nat)
      modifies this`auths
      ensures auths == ExpireHolds(old(auths), c, now)
    {
      for i := 0 to |auths|
        invariant |auths| == |old(auths)|
        invariant forall j :: 0 <= j < |auths| ==> auths[j] == if j < i then WithoutExpired(old(auths)[j], c, now)
            else old(auths)[j]
      {
        if auths[i].customer == c && auths[i].status.Approved? && auths[i].expiry < now {
          auths := auths[i := auths[i].(status := Expired)];
        }
      }
    }

    method RequestAuthorization(trunc: Calendar, limits: seq<Limit>, c: nat, vehicle: Option<nat>,
                                product: Option<nat>, amount: real)
      returns (d: Decision)
      modifies this`auths
      ensures View() == Request(trunc, limits, old(View()), c, vehicle, product, amount)
      ensures var cleaned := old(View()).(auths := ExpireHolds(old(auths), c, now));
        d == Decide(trunc, limits, cleaned, c, vehicle, product, amount)
      ensures d.Allowed? <==> |auths| == |old(auths)| + 1
      ensures !d.Allowed? ==> auths == ExpireHolds(old(auths), c, now)
    {
      ReleaseExpired(c);
      if c !in customers {
        return UnknownCustomer;
      }
      if customers[c].blocked {
        return AccountBlocked;
      }
      var available := customers[c].limit - (Balance(ledger, c) + Sum(auths, Live(c, now)));
      if amount > available as real {
        return InsufficientCredit;
      }
      for i := 0 to |limits|
        invariant forall j :: 0 <= j < i ==> !Violates(trunc, View(), limits[j], c, vehicle, product, amount)
      {
        if Violates(trunc, View(), limits[i], c, vehicle, product, amount) {
          return LimitExceeded;
        }
      }
      auths := auths + [Auth(c, vehicle, product, Round(amount), Approved, now, now + HOUR)];
      d := Allowed;
    }

    method PostCharge(c: nat, amount: real) returns (posted: bool)
      modifies this`ledger
      ensures View() == Charge(old(View()), c, amount)
      ensures posted <==> ChargeAllowed(old(View()), c, amount)
      ensures forall k ::
        Balance(ledger, k) == old(Balance(ledger, k)) + if posted && k == c then Round(amount) else 0
    {
      if c !in customers || customers[c].blocked {
        return false;
      }
      var balance, held := Balance(ledger, c), Sum(auths, Held(c));
      if (balance + held) as real + amount > customers[c].limit as real {
        return false;
      }
      forall k ensures Balance(ledger + [Entry(c, Round(amount))], k)
                    == Balance(ledger, k) + if k == c then Round(amount) else 0
      {
        BalanceSnoc(ledger, Entry(c, Round(amount)), k);
      }
      ledger := ledger + [Entry(c, Round(amount))];
      posted := true;
    }

    method PostPayment(c: nat, amount: real)
      modifies this`ledger
      ensures View() == Pay(old(View()), c, amount)
      ensures forall k :: Balance(ledger, k) == old(Balance(ledger, k)) - if k == c then Round(amount) else 0
    {
      forall k ensures Balance(ledger + [Entry(c, -Round(amount))], k)
                    == Balance(ledger, k) - if k == c then Round(amount) else 0
      {
        BalanceSnoc(ledger, Entry(c, -Round(amount)), k);
      }
      ledger := ledger + [Entry(c, -Round(amount))];
    }

    /** Consumes an approved authorization once. */
    method FulfillAuthorization(i: nat) returns (found: bool)
      modifies this`auths
      ensures View() == SetStatus(old(View()), i, {Approved}, Fulfilled)
      ensures found <==> i < |old(auths)| && old(auths)[i].status.Approved?
      ensures found ==> i < |auths| && !auths[i].status.Approved?
    {
      found := i < |auths| && auths[i].status.Approved?;
      if found {
        auths := auths[i := auths[i].(status := Fulfilled)];
      }
    }
  }
}

/** Customer invoices, payments allocated to them, and the voiding of payments.

Amounts are stored in cents; an allocation arrives unrounded.  The invoice column and the allocation column
each round on their own, which is where cents can part ways.
 */
module Receivables {
  import opened Numeric
  import opened Wrappers

  datatype Status = Draft | Issued | PartiallyPaid | Paid

  datatype Invoice = Invoice(customer: nat, amount: int, outstanding: int, status: Status)

  datatype Payment = Payment(customer: nat, total: int, voided: bool)

  datatype Allocation = Allocation(payment: nat, invoice: nat, amount: int)

  datatype Book = Book(invoices: seq<Invoice>, payments: seq<Payment>, allocations: seq<Allocation>)

  datatype Error = NotFound | BadState | OverAllocated | WrongCustomer | BadAmount | NotReversible

  const Blank := Book([], [], [])

  // ---- Invoices ----

  function LineSum(lines: seq<int>): int {
    if lines == [] then 0 else LineSum(lines[..|lines| - 1]) + lines[|lines| - 1]
  }

  /** Lines must be positive; the total becomes both amount and outstanding. */
  function NewInvoice(b: Book, customer: nat, lines: seq<int>): Result<Book, Error> {
    if exists i :: 0 <= i < |lines| && lines[i] <= 0 then Err(BadAmount)
    else Ok(b.(invoices := b.invoices + [Invoice(customer, LineSum(lines), LineSum(lines), Draft)]))
  }

  function Issue(b: Book, i: nat): Result<Book, Error> {
    if i < |b.invoices| && b.invoices[i].status.Draft?
    then Ok(b.(invoices := b.invoices[i := b.invoices[i].(status := Issued)])) else Err(BadState)
  }

  /** The status an issued invoice should have. */
  function StatusOf(outstanding: int, amount: int): Status {
    if outstanding == amount then Issued else if outstanding == 0 then Paid else PartiallyPaid
  }

  // ---- Allocating ----

  function Reduced(inv: Invoice, x: real): Invoice {
    var rest := inv.outstanding as real - x;
    inv.(outstanding := Round(rest), status := if rest <= 0.0 then Paid else PartiallyPaid)
  }

  function ApplyError(b: Book, customer: nat, i: nat, x: real): Result<(), Error> {
    if i >= |b.invoices| then Err(OverAllocated)
    else if b.invoices[i].customer != customer then Err(WrongCustomer)
    else if !(b.invoices[i].status.Issued? || b.invoices[i].status.PartiallyPaid?)
      || b.invoices[i].outstanding as real < x then Err(OverAllocated)
    else Ok(())
  }

  /** Take `x` off the invoice, record the allocation, and add it to the payment. */
  function Allocate(b: Book, p: nat, i: nat, x: real): Result<Book, Error>
    requires p < |b.payments|
  {
    if x <= 0.0 then Err(BadAmount)
    else
      var checked := ApplyError(b, b.payments[p].customer, i, x);
      if checked.Err? then Err(checked.error)
      else if Round(x) <= 0 then Err(BadAmount)
      else
        Ok(Book(b.invoices[i := Reduced(b.invoices[i], x)],
                b.payments[p := b.payments[p].(total := Round(b.payments[p].total as real + x))],
                b.allocations + [Allocation(p, i, Round(x))]))
  }

  /** An allocation is accepted if and only if the invoice is there, is the payer's, is issued or partly paid, and still
      owes the amount, which is at least half a cent; a zero or negative amount is always refused as such. */
  lemma AllocatedIff(b: Book, p: nat, i: nat, x: real)
    requires p < |b.payments|
    ensures var r := Allocate(b, p, i, x);
      && (r.Ok? <==> && i < |b.invoices| && b.invoices[i].customer == b.payments[p].customer
                     && b.invoices[i].status in {Issued, PartiallyPaid}
                     && 0.5 <= x <= b.invoices[i].outstanding as real)
      && (x <= 0.0 ==> r == Err(BadAmount))
  {
    if x < 0.5 {
      RoundMonotone(x, 0.5);
    }
  }

  /** An invoice is accepted if and only if every line is positive; it starts as a draft owing the sum of its lines. */
  lemma InvoicedIff(b: Book, customer: nat, lines: seq<int>)
    ensures var r := NewInvoice(b, customer, lines);
      && (r.Ok? <==> forall i :: 0 <= i < |lines| ==> lines[i] > 0)
      && (r.Ok? ==> r.value == b.(invoices := r.value.invoices) && |r.value.invoices| == |b.invoices| + 1
                    && r.value.invoices[..|b.invoices|] == b.invoices
                    && var inv := r.value.invoices[|b.invoices|];
                       inv.customer == customer && inv.amount == inv.outstanding == LineSum(lines) && inv.status.Draft?)
  {
  }

  datatype Item = Item(invoice: nat, amount: real)

  /** A payment and its allocations, or nothing. */
  function AllocateAll(b: Book, p: nat, items: seq<Item>): (r: Result<Book, Error>)
    requires p < |b.payments|
    ensures r.Ok? ==> |r.value.payments| == |b.payments| && |r.value.invoices| == |b.invoices|
  {
    if items == [] then Ok(b)
    else
      var before := AllocateAll(b, p, items[..|items| - 1]);
      if before.Err? then before else Allocate(before.value, p, items[|items| - 1].invoice, items[|items| - 1].amount)
  }

  function Record(b: Book, customer: nat, items: seq<Item>): Result<Book, Error> {
    AllocateAll(b.(payments := b.payments + [Payment(customer, 0, false)]), |b.payments|, items)
  }

  // ---- Voiding ----

  function Min(a: int, b: int): int {
    if a < b then a else b
  }

  function Reopened(outstanding: int, amount: int): Status {
    if outstanding >= amount then Issued else PartiallyPaid
  }

  function Restored(inv: Invoice, amount: int): Invoice {
    var o := Min(inv.outstanding + amount, inv.amount);
    inv.(outstanding := o, status := Reopened(o, inv.amount))
  }

  /** Give back the payment's allocations, one after the other. */
  function RestoreAll(invoices: seq<Invoice>, allocations: seq<Allocation>, p: nat): (out: seq<Invoice>)
    ensures |out| == |invoices|
  {
    if allocations == [] then invoices
    else
      var before, last := RestoreAll(invoices, allocations[..|allocations| - 1], p), allocations[|allocations| - 1];
      if last.payment == p && last.invoice < |before|
        then before[last.invoice := Restored(before[last.invoice], last.amount)] else before
  }

  function Void(b: Book, p: nat): Result<Book, Error> {
    if p >= |b.payments| then Err(NotFound)
    else if b.payments[p].voided then Err(NotReversible)
    else Ok(Book(RestoreAll(b.invoices, b.allocations, p), b.payments[p := b.payments[p].(voided := true)],
      b.allocations))
  }

  datatype Op =
    | DoInvoice(customer: nat, lines: seq<int>)
    | DoIssue(invoice: nat)
    | DoPay(customer: nat, items: seq<Item>)
    | DoVoid(payment: nat)

  function Outcome(b: Book, r: Result<Book, Error>): Book {
    if r.Ok? then r.value else b
  }

  function Apply(b: Book, op: Op): Book {
    match op
    case DoInvoice(customer, lines) => Outcome(b, NewInvoice(b, customer, lines))
    case DoIssue(i) => Outcome(b, Issue(b, i))
    case DoPay(customer, items) => Outcome(b, Record(b, customer, items))
    case DoVoid(p) => Outcome(b, Void(b, p))
  }

  function Run(b: Book, ops: seq<Op>): Book
    decreases |ops|
  {
    if ops == [] then b else Run(Apply(b, ops[0]), ops[1..])
  }

  // ---- What should hold ----

  /** Allocations of posted payments to an invoice. */
  function Posted(allocations: seq<Allocation>, payments: seq<Payment>, i: nat): int {
    if allocations == [] then 0
    else
      var last := allocations[|allocations| - 1];
      Posted(allocations[..|allocations| - 1], payments, i)
      + if last.invoice == i && last.payment < |payments| && !payments[last.payment].voided then last.amount else 0
  }

  /** What one payment took from an invoice. */
  function Taken(allocations: seq<Allocation>, p: nat, i: nat): int {
    if allocations == [] then 0
    else
      var last := allocations[|allocations| - 1];
      Taken(allocations[..|allocations| - 1], p, i) + if last.payment == p && last.invoice == i then last.amount else 0
  }

  /** The books of one invoice are exact. */
  ghost predicate InvoiceOk(b: Book, i: nat) {
    i < |b.invoices| ==>
      var inv := b.invoices[i];
      && inv.outstanding == inv.amount - Posted(b.allocations, b.payments, i)
      && (if inv.status.Draft? then inv.outstanding == inv.amount
        else inv.status == StatusOf(inv.outstanding, inv.amount))
  }

  predicate AllocationsOk(b: Book) {
    forall k :: 0 <= k < |b.allocations| ==>
      && b.allocations[k].amount > 0 && b.allocations[k].payment < |b.payments|
      && b.allocations[k].invoice < |b.invoices| && !b.invoices[b.allocations[k].invoice].status.Draft?
  }

  /** What an invoice owes lies between zero and its amount and is never understated. */
  predicate InvoiceBounded(b: Book, i: nat) {
    i < |b.invoices| ==>
      && 0 <= b.invoices[i].outstanding <= b.invoices[i].amount
      && b.invoices[i].amount - Posted(b.allocations, b.payments, i) <= b.invoices[i].outstanding
  }

  ghost predicate Inv(b: Book) {
    AllocationsOk(b) && forall i: nat :: InvoiceBounded(b, i)
  }

  /** The amount is not halfway between two cents, and does not leave a remainder too small to store. */
  predicate CentsAgree(outstanding: int, x: real) {
    var rest := outstanding as real - x;
    !Halfway(x) && !(0.0 < rest < 0.5)
  }

  function HalfCent(x: real): nat {
    if Halfway(x) then 1 else 0
  }

  /** What the invoice still owes, and its status, follow the recorded allocation. */
  predicate InStep(before: Invoice, after: Invoice, amount: int) {
    && after.outstanding == before.outstanding - amount
    && after.status == if after.outstanding == 0 then Paid else PartiallyPaid
  }

  /** One allocation keeps an invoice's books exactly when its cents agree. */
  lemma ReducedExactly(inv: Invoice, x: real)
    requires 0.0 < x <= inv.outstanding as real <= inv.amount as real
    ensures var r := Reduced(inv, x);
      && 0 <= r.outstanding <= inv.outstanding
      && (InStep(inv, r, Round(x)) <==> CentsAgree(inv.outstanding, x))
  {
    var rest := inv.outstanding as real - x;
    RoundShift(inv.outstanding, -x);
    assert Round(-x) == -Round(x);
    HalfwayNegated(x);
    RoundMonotone(0.0, rest);
    RoundMonotone(rest, inv.outstanding as real);
    RoundOfStored(inv.outstanding);
    assert inv.outstanding as real + -x == rest;
    assert Round(rest) == 0 <==> rest < 0.5;
  }

  /** Whatever the cents, an allocation takes off what it records, or one cent less when it is halfway. */
  lemma ReducedBy(inv: Invoice, x: real)
    requires 0.0 < x <= inv.outstanding as real
    ensures 0 <= Reduced(inv, x).outstanding <= inv.outstanding
    ensures Reduced(inv, x).outstanding == inv.outstanding - Round(x) + HalfCent(x)
  {
    var rest := inv.outstanding as real - x;
    RoundMonotone(0.0, rest);
    RoundMonotone(rest, inv.outstanding as real);
    RoundOfStored(inv.outstanding);
    HalfwayNegated(x);
    assert inv.outstanding as real + -x == rest && Round(-x) == -Round(x);
    RoundShift(inv.outstanding, -x);
    if Halfway(x) {
      var f := x.Floor;
      assert rest == (inv.outstanding - f) as real - 0.5;
      assert (rest + 0.5).Floor == inv.outstanding - f && (x + 0.5).Floor == f + 1;
    }
  }

  lemma HalfwayNegated(x: real)
    ensures Halfway(-x) <==> Halfway(x)
  {
    var f := x.Floor;
    if Halfway(x) {
      assert (-x).Floor == -f - 1;
    } else if x == f as real {
      assert (-x).Floor == -f;
    } else {
      assert (-x).Floor == -f - 1;
    }
  }

  lemma WholeCentsAgree(outstanding: int, n: int)
    ensures CentsAgree(outstanding, n as real)
  {
    assert outstanding as real - n as real == (outstanding - n) as real;
  }

  // ---- Two payments that part from the books ----

  /** One dollar invoiced, issued, and paid in part. */
  function PaidOnce(x: real): seq<Op> {
    [DoInvoice(0, [100]), DoIssue(0)] + [DoPay(0, [Item(0, x)])]
  }

  lemma {:induction false} RunAppend(b: Book, ops: seq<Op>, more: seq<Op>)
    ensures Run(b, ops + more) == Run(Run(b, ops), more)
    decreases |ops|
  {
    if ops == [] {
      assert ops + more == more;
    } else {
      assert (ops + more)[1..] == ops[1..] + more;
      RunAppend(Apply(b, ops[0]), ops[1..], more);
    }
  }

  lemma RunOne(b: Book, op: Op)
    ensures Run(b, [op]) == Apply(b, op)
  {
    assert [op][1..] == [];
  }

  function OneIssued(): Book {
    Book([Invoice(0, 100, 100, Issued)], [], [])
  }

  lemma IssuedIsReached()
    ensures Run(Blank, [DoInvoice(0, [100]), DoIssue(0)]) == OneIssued()
  {
    var ops := [DoInvoice(0, [100]), DoIssue(0)];
    var drafted := Book([Invoice(0, 100, 100, Draft)], [], []);
    assert [100][..0] == [] && LineSum([100]) == 100;
    assert Apply(Blank, ops[0]) == drafted;
    RunAppend(Blank, [ops[0]], [ops[1]]);
    assert [ops[0]] + [ops[1]] == ops;
    RunOne(Blank, ops[0]);
    RunOne(drafted, ops[1]);
  }

  lemma PaidIsReached(x: real)
    requires 0.0 < x <= 100.0 && Round(x) > 0
    ensures Run(Blank, PaidOnce(x))
         == Book([Reduced(Invoice(0, 100, 100, Issued), x)], [Payment(0, Round(x), false)],
                 [Allocation(0, 0, Round(x))])
  {
    var begun := Begun(OneIssued(), 0);
    var items := [Item(0, x)];
    IssuedIsReached();
    RunAppend(Blank, [DoInvoice(0, [100]), DoIssue(0)], [DoPay(0, items)]);
    RunOne(OneIssued(), DoPay(0, items));
    assert items[..0] == [] && AllocateAll(begun, 0, items) == Allocate(begun, 0, 0, x);
    assert begun.payments == [Payment(0, 0, false)];
    assert Round(0.0 + x) == Round(x);
  }

  /** 10.5 cents against 100: the invoice gives up 10, the allocation says 11, and voiding gives back one cent less than
      was recorded. */
  lemma HalfCentDrifts()
    ensures var b := Run(Blank, PaidOnce(10.5));
      && |b.invoices| == 1 && b.invoices[0].outstanding == 90 && b.allocations == [Allocation(0, 0, 11)]
      && var v := Void(b, 0); v.Ok? && |v.value.invoices| == 1 && v.value.invoices[0].outstanding == 100 < 90 + 11
  {
    assert (89.5 + 0.5).Floor == 90 && (10.5 + 0.5).Floor == 11;
    PaidIsReached(10.5);
    var allocations := [Allocation(0, 0, 11)];
    assert allocations[..0] == [];
  }

  /** 99.7 cents against 100: nothing is outstanding and the invoice stays partially paid. */
  lemma RemainderStaysOpen()
    ensures var b := Run(Blank, PaidOnce(99.7));
      && b.allocations == [Allocation(0, 0, 100)]
      && |b.invoices| == 1 && b.invoices[0].outstanding == 0 && b.invoices[0].status.PartiallyPaid?
  {
    assert (0.3 + 0.5).Floor == 0 && (99.7 + 0.5).Floor == 100;
    PaidIsReached(99.7);
  }

  // ---- Sums of allocations ----

  lemma PostedSnoc(allocations: seq<Allocation>, a: Allocation, payments: seq<Payment>, i: nat)
    ensures Posted(allocations + [a], payments, i) == Posted(allocations, payments, i)
      + if a.invoice == i && a.payment < |payments| && !payments[a.payment].voided then a.amount else 0
  {
    assert (allocations + [a])[..|allocations|] == allocations;
  }

  /** Only which payments are voided matters. */
  lemma {:induction false} PostedSame(allocations: seq<Allocation>, before: seq<Payment>, after: seq<Payment>, i: nat)
    requires |before| <= |after| && forall k :: 0 <= k < |before| ==> before[k].voided == after[k].voided
    requires forall k :: 0 <= k < |allocations| ==> allocations[k].payment < |before|
    ensures Posted(allocations, after, i) == Posted(allocations, before, i)
  {
    if allocations != [] {
      PostedSame(allocations[..|allocations| - 1], before, after, i);
    }
  }

  lemma {:induction false} PostedNone(allocations: seq<Allocation>, payments: seq<Payment>, i: nat)
    requires forall k :: 0 <= k < |allocations| ==> allocations[k].invoice != i
    ensures Posted(allocations, payments, i) == 0
  {
    if allocations != [] {
      PostedNone(allocations[..|allocations| - 1], payments, i);
    }
  }

  lemma {:induction false} PostedVoid(allocations: seq<Allocation>, payments: seq<Payment>, p: nat, i: nat)
    requires p < |payments| && !payments[p].voided
    requires forall k :: 0 <= k < |allocations| ==> allocations[k].amount > 0
    ensures Posted(allocations, payments[p := payments[p].(voided := true)], i)
        == Posted(allocations, payments, i) - Taken(allocations, p, i)
    ensures 0 <= Taken(allocations, p, i) <= Posted(allocations, payments, i)
  {
    if allocations != [] {
      PostedVoid(allocations[..|allocations| - 1], payments, p, i);
    }
  }

  lemma {:induction false} TakenNone(allocations: seq<Allocation>, p: nat, i: nat)
    requires forall k :: 0 <= k < |allocations| ==> allocations[k].invoice != i
    ensures Taken(allocations, p, i) == 0
  {
    if allocations != [] {
      TakenNone(allocations[..|allocations| - 1], p, i);
    }
  }

  // ---- Every operation keeps the bounds ----

  lemma AllocateKeeps(b: Book, p: nat, i: nat, x: real)
    requires Inv(b) && p < |b.payments| && !b.payments[p].voided && Allocate(b, p, i, x).Ok?
    ensures Inv(Allocate(b, p, i, x).value)
  {
    var b' := Allocate(b, p, i, x).value;
    assert InvoiceBounded(b, i);
    ReducedBy(b.invoices[i], x);
    forall k: nat ensures InvoiceBounded(b', k) {
      AllocatePosts(b, p, i, x, k);
      assert InvoiceBounded(b, k);
    }
  }

  lemma AllocatePosts(b: Book, p: nat, i: nat, x: real, k: nat)
    requires AllocationsOk(b) && p < |b.payments| && !b.payments[p].voided && Allocate(b, p, i, x).Ok?
    ensures var b' := Allocate(b, p, i, x).value;
      Posted(b'.allocations, b'.payments, k) == Posted(b.allocations, b.payments, k) + if k == i then Round(x) else 0
  {
    var b' := Allocate(b, p, i, x).value;
    PostedSame(b.allocations, b.payments, b'.payments, k);
    PostedSnoc(b.allocations, Allocation(p, i, Round(x)), b'.payments, k);
  }

  lemma {:induction false} AllocateAllKeeps(b: Book, p: nat, items: seq<Item>)
    requires Inv(b) && p < |b.payments| && !b.payments[p].voided && AllocateAll(b, p, items).Ok?
    ensures Inv(AllocateAll(b, p, items).value) && !AllocateAll(b, p, items).value.payments[p].voided
  {
    if items != [] {
      var last := items[|items| - 1];
      AllocateAllKeeps(b, p, items[..|items| - 1]);
      AllocateKeeps(AllocateAll(b, p, items[..|items| - 1]).value, p, last.invoice, last.amount);
    }
  }

  function Begun(b: Book, customer: nat): Book {
    b.(payments := b.payments + [Payment(customer, 0, false)])
  }

  lemma BegunKeeps(b: Book, customer: nat)
    requires Inv(b)
    ensures Inv(Begun(b, customer)) && forall i: nat :: InvoiceOk(b, i) ==> InvoiceOk(Begun(b, customer), i)
  {
    forall i: nat
      ensures InvoiceBounded(Begun(b, customer), i)
      ensures InvoiceOk(b, i) ==> InvoiceOk(Begun(b, customer), i)
    {
      assert InvoiceBounded(b, i);
      PostedSame(b.allocations, b.payments, Begun(b, customer).payments, i);
    }
  }

  /** An invoice that has been given back `taken` in all. */
  predicate GivenBack(before: Invoice, after: Invoice, taken: int) {
    && after.amount == before.amount && after.customer == before.customer && 0 <= taken
    && after.outstanding == Min(before.outstanding + taken, after.amount)
    && if taken == 0 then after == before else after.status == Reopened(after.outstanding, after.amount)
  }

  lemma RestoreStep(before: Invoice, after: Invoice, taken: int, amount: int)
    requires GivenBack(before, after, taken) && amount > 0 && before.outstanding <= before.amount
    ensures GivenBack(before, Restored(after, amount), taken + amount)
  {
  }

  /** Giving back the first n allocations: each invoice gets what they took, up to its amount. */
  lemma {:induction false} RestoreIsExact(b: Book, p: nat, n: nat, i: nat)
    requires Inv(b) && n <= |b.allocations| && i < |b.invoices|
    ensures GivenBack(b.invoices[i], RestoreAll(b.invoices, b.allocations[..n], p)[i], Taken(b.allocations[..n], p, i))
    decreases n
  {
    assert InvoiceBounded(b, i);
    if n > 0 {
      var first, a := b.allocations[..n - 1], b.allocations[n - 1];
      assert b.allocations[..n][..n - 1] == first;
      RestoreIsExact(b, p, n - 1, i);
      RestoreStep(b.invoices[i], RestoreAll(b.invoices, first, p)[i], Taken(first, p, i), a.amount);
    }
  }

  /** What voiding leaves of one invoice. */
  lemma VoidLeaves(b: Book, p: nat, i: nat)
    requires Inv(b) && Void(b, p).Ok? && i < |b.invoices|
    ensures var b', taken := Void(b, p).value, Taken(b.allocations, p, i);
      && i < |b'.invoices| && b'.invoices[i].amount == b.invoices[i].amount
        && 0 <= taken <= Posted(b.allocations, b.payments, i)
      && b'.invoices[i].outstanding == Min(b.invoices[i].outstanding + taken, b.invoices[i].amount)
      && Posted(b'.allocations, b'.payments, i) == Posted(b.allocations, b.payments, i) - taken
      && (if taken == 0 then b'.invoices[i] == b.invoices[i]
          else b'.invoices[i].status == Reopened(b'.invoices[i].outstanding, b'.invoices[i].amount))
  {
    assert b.allocations[..|b.allocations|] == b.allocations;
    RestoreIsExact(b, p, |b.allocations|, i);
    PostedVoid(b.allocations, b.payments, p, i);
  }

  lemma VoidKeeps(b: Book, p: nat)
    requires Inv(b) && Void(b, p).Ok?
    ensures Inv(Void(b, p).value)
  {
    var b' := Void(b, p).value;
    forall i: nat ensures InvoiceBounded(b', i) {
      assert InvoiceBounded(b, i);
      if i < |b.invoices| {
        VoidLeaves(b, p, i);
      }
    }
    forall k | 0 <= k < |b'.allocations| ensures !b'.invoices[b'.allocations[k].invoice].status.Draft? {
      VoidLeaves(b, p, b.allocations[k].invoice);
    }
  }

  lemma {:induction false} LineSumPositive(lines: seq<int>)
    requires forall i :: 0 <= i < |lines| ==> lines[i] > 0
    ensures LineSum(lines) >= 0
  {
    if lines != [] {
      LineSumPositive(lines[..|lines| - 1]);
    }
  }

  lemma InvoiceKeeps(b: Book, customer: nat, lines: seq<int>)
    requires Inv(b) && NewInvoice(b, customer, lines).Ok?
    ensures var b' := NewInvoice(b, customer, lines).value;
      Inv(b') && forall i: nat :: InvoiceOk(b, i) ==> InvoiceOk(b', i)
  {
    var b' := NewInvoice(b, customer, lines).value;
    LineSumPositive(lines);
    forall i: nat ensures InvoiceBounded(b', i) ensures InvoiceOk(b, i) ==> InvoiceOk(b', i) {
      assert InvoiceBounded(b, i);
      if i == |b.invoices| {
        PostedNone(b.allocations, b.payments, i);
      }
    }
  }

  lemma IssueKeeps(b: Book, n: nat)
    requires Inv(b)
    ensures Inv(Apply(b, DoIssue(n))) && forall i: nat :: InvoiceOk(b, i) ==> InvoiceOk(Apply(b, DoIssue(n)), i)
  {
    forall i: nat
      ensures InvoiceBounded(Apply(b, DoIssue(n)), i)
      ensures InvoiceOk(b, i) ==> InvoiceOk(Apply(b, DoIssue(n)), i)
    {
      assert InvoiceBounded(b, i);
    }
  }

  lemma ApplyKeeps(b: Book, op: Op)
    requires Inv(b)
    ensures Inv(Apply(b, op))
  {
    match op
    case DoInvoice(customer, lines) => if NewInvoice(b, customer, lines).Ok? { InvoiceKeeps(b, customer, lines); }
    case DoIssue(n) => IssueKeeps(b, n);
    case DoPay(customer, items) =>
      if Record(b, customer, items).Ok? {
        BegunKeeps(b, customer);
        AllocateAllKeeps(Begun(b, customer), |b.payments|, items);
      }
    case DoVoid(p) => if Void(b, p).Ok? { VoidKeeps(b, p); }
  }

  lemma {:induction false} RunKeeps(b: Book, ops: seq<Op>)
    requires Inv(b)
    ensures Inv(Run(b, ops))
    decreases |ops|
  {
    if ops != [] {
      ApplyKeeps(b, ops[0]);
      RunKeeps(Apply(b, ops[0]), ops[1..]);
    }
  }

  /** Over every run, whatever the cents: outstanding lies between zero and the amount, and is never less than the
      amount less the posted allocations. */
  lemma OutstandingBounded(ops: seq<Op>, i: nat)
    requires i < |Run(Blank, ops).invoices|
    ensures var b := Run(Blank, ops);
      && 0 <= b.invoices[i].outstanding <= b.invoices[i].amount
      && b.invoices[i].amount - Posted(b.allocations, b.payments, i) <= b.invoices[i].outstanding
  {
    RunKeeps(Blank, ops);
    assert InvoiceBounded(Run(Blank, ops), i);
  }

  // ---- Where the cents agree the books are exact ----

  /** The amounts of an accepted payment agree with invoice i where they meet it. */
  predicate ItemsAgree(b: Book, p: nat, items: seq<Item>, i: nat)
    requires p < |b.payments| && AllocateAll(b, p, items).Ok?
  {
    items == [] ||
    var before, last := items[..|items| - 1], items[|items| - 1];
    && ItemsAgree(b, p, before, i)
    && (last.invoice == i < |b.invoices| ==>
      CentsAgree(AllocateAll(b, p, before).value.invoices[i].outstanding, last.amount))
  }

  predicate OpAgrees(b: Book, op: Op, i: nat) {
    op.DoPay? && Record(b, op.customer, op.items).Ok? ==> ItemsAgree(Begun(b, op.customer), |b.payments|, op.items, i)
  }

  /** Every allocation the run accepts on invoice i agrees with it. */
  predicate RunAgrees(b: Book, ops: seq<Op>, i: nat)
    decreases |ops|
  {
    ops == [] || (OpAgrees(b, ops[0], i) && RunAgrees(Apply(b, ops[0]), ops[1..], i))
  }

  lemma AllocateExact(b: Book, p: nat, i: nat, x: real, k: nat)
    requires Inv(b) && p < |b.payments| && !b.payments[p].voided && Allocate(b, p, i, x).Ok? && InvoiceOk(b, k)
    requires k == i ==> CentsAgree(b.invoices[i].outstanding, x)
    ensures InvoiceOk(Allocate(b, p, i, x).value, k)
  {
    AllocatePosts(b, p, i, x, k);
    assert InvoiceBounded(b, i);
    if k == i {
      ReducedExactly(b.invoices[i], x);
    }
  }

  lemma {:induction false} AllocateAllExact(b: Book, p: nat, items: seq<Item>, i: nat)
    requires Inv(b) && p < |b.payments| && !b.payments[p].voided && InvoiceOk(b, i)
    requires AllocateAll(b, p, items).Ok? && ItemsAgree(b, p, items, i)
    ensures InvoiceOk(AllocateAll(b, p, items).value, i)
  {
    if items != [] {
      var before, last := items[..|items| - 1], items[|items| - 1];
      AllocateAllKeeps(b, p, before);
      AllocateAllExact(b, p, before, i);
      AllocateExact(AllocateAll(b, p, before).value, p, last.invoice, last.amount, i);
    }
  }

  /** With exact books the cap of a void never binds. */
  lemma VoidExact(b: Book, p: nat, i: nat)
    requires Inv(b) && InvoiceOk(b, i) && Void(b, p).Ok? && i < |b.invoices|
    ensures InvoiceOk(Void(b, p).value, i)
    ensures b.invoices[i].outstanding + Taken(b.allocations, p, i) <= b.invoices[i].amount
  {
    assert InvoiceBounded(b, i);
    VoidLeaves(b, p, i);
    if b.invoices[i].status.Draft? {
      DraftUntouched(b, p, i);
    }
  }

  lemma DraftUntouched(b: Book, p: nat, i: nat)
    requires AllocationsOk(b) && i < |b.invoices| && b.invoices[i].status.Draft?
    ensures Taken(b.allocations, p, i) == 0
  {
    TakenNone(b.allocations, p, i);
  }

  lemma ApplyExact(b: Book, op: Op, i: nat)
    requires Inv(b) && InvoiceOk(b, i) && OpAgrees(b, op, i)
    ensures InvoiceOk(Apply(b, op), i)
  {
    match op
    case DoInvoice(customer, lines) => if NewInvoice(b, customer, lines).Ok? { InvoiceKeeps(b, customer, lines); }
    case DoIssue(n) => IssueKeeps(b, n);
    case DoPay(customer, items) =>
      if Record(b, customer, items).Ok? {
        BegunKeeps(b, customer);
        AllocateAllExact(Begun(b, customer), |b.payments|, items, i);
      }
    case DoVoid(p) => if Void(b, p).Ok? && i < |b.invoices| { VoidExact(b, p, i); }
  }

  lemma {:induction false} RunExact(b: Book, ops: seq<Op>, i: nat)
    requires Inv(b) && InvoiceOk(b, i) && RunAgrees(b, ops, i)
    ensures InvoiceOk(Run(b, ops), i)
    decreases |ops|
  {
    if ops != [] {
      ApplyExact(b, ops[0], i);
      ApplyKeeps(b, ops[0]);
      RunExact(Apply(b, ops[0]), ops[1..], i);
    }
  }

  /** Where every allocation accepted on an invoice agrees with it, the issued invoice owes its amount less the
      allocations of posted payments, and its status follows from that. */
  lemma OutstandingIsExact(ops: seq<Op>, i: nat)
    requires RunAgrees(Blank, ops, i) && i < |Run(Blank, ops).invoices| && !Run(Blank, ops).invoices[i].status.Draft?
    ensures var b := Run(Blank, ops);
      && b.invoices[i].outstanding == b.invoices[i].amount - Posted(b.allocations, b.payments, i)
      && b.invoices[i].status == StatusOf(b.invoices[i].outstanding, b.invoices[i].amount)
  {
    RunExact(Blank, ops, i);
  }

  /** Over every run, voiding a posted payment gives an invoice back what the payment took, up to its amount; and
      exactly that where the allocations accepted on the invoice agreed with it. */
  lemma VoidRestores(ops: seq<Op>, p: nat, i: nat)
    requires i < |Run(Blank, ops).invoices| && Void(Run(Blank, ops), p).Ok?
    ensures var b := Run(Blank, ops);
      var back := b.invoices[i].outstanding + Taken(b.allocations, p, i);
      && i < |Void(b, p).value.invoices|
      && Void(b, p).value.invoices[i].outstanding == Min(back, b.invoices[i].amount)
      && (RunAgrees(Blank, ops, i) ==> back <= b.invoices[i].amount)
  {
    var b := Run(Blank, ops);
    RunKeeps(Blank, ops);
    VoidLeaves(b, p, i);
    if RunAgrees(Blank, ops, i) {
      RunExact(Blank, ops, i);
      VoidExact(b, p, i);
    }
  }

  // ---- How far the books drift ----

  function HalfCents(items: seq<Item>, i: nat): nat {
    if items == [] then 0
    else
      var last := items[|items| - 1];
      HalfCents(items[..|items| - 1], i) + if last.invoice == i then HalfCent(last.amount) else 0
  }

  /** A half cent in an accepted payment adds a cent; a void leaves no more than is still posted. */
  function DriftAfter(b: Book, op: Op, i: nat, drift: int): int {
    match op
    case DoPay(customer, items) => if Record(b, customer, items).Ok? then drift + HalfCents(items, i) else drift
    case DoVoid(p) =>
      if Void(b, p).Ok? then Min(drift, Posted(b.allocations, Void(b, p).value.payments, i)) else drift
    case _ => drift
  }

  function Drift(b: Book, ops: seq<Op>, i: nat, drift: int): int
    decreases |ops|
  {
    if ops == [] then drift else Drift(Apply(b, ops[0]), ops[1..], i, DriftAfter(b, ops[0], i, drift))
  }

  /** How much more an invoice owes than the posted allocations leave. */
  function Excess(b: Book, i: nat): int
    requires i < |b.invoices|
  {
    b.invoices[i].outstanding - (b.invoices[i].amount - Posted(b.allocations, b.payments, i))
  }

  predicate DriftIs(b: Book, i: nat, drift: int) {
    if i < |b.invoices| then Excess(b, i) == drift else drift == 0
  }

  lemma {:induction false} AllocateAllDrifts(b: Book, p: nat, items: seq<Item>, i: nat, drift: int)
    requires Inv(b) && p < |b.payments| && !b.payments[p].voided && AllocateAll(b, p, items).Ok? && DriftIs(b, i, drift)
    ensures DriftIs(AllocateAll(b, p, items).value, i, drift + HalfCents(items, i))
  {
    if items != [] {
      var before, last := items[..|items| - 1], items[|items| - 1];
      AllocateAllKeeps(b, p, before);
      AllocateAllDrifts(b, p, before, i, drift);
      var b' := AllocateAll(b, p, before).value;
      AllocatePosts(b', p, last.invoice, last.amount, i);
      ReducedBy(b'.invoices[last.invoice], last.amount);
    }
  }

  lemma VoidDrifts(b: Book, p: nat, i: nat, drift: int)
    requires Inv(b) && Void(b, p).Ok? && DriftIs(b, i, drift)
    ensures DriftIs(Void(b, p).value, i, DriftAfter(b, DoVoid(p), i, drift))
  {
    if i < |b.invoices| {
      VoidLeaves(b, p, i);
    } else {
      PostedNone(b.allocations, Void(b, p).value.payments, i);
    }
  }

  lemma ApplyDrifts(b: Book, op: Op, i: nat, drift: int)
    requires Inv(b) && DriftIs(b, i, drift)
    ensures DriftIs(Apply(b, op), i, DriftAfter(b, op, i, drift))
  {
    match op
    case DoInvoice(customer, lines) => PostedNone(b.allocations, b.payments, |b.invoices|);
    case DoIssue(n) =>
    case DoPay(customer, items) =>
      if Record(b, customer, items).Ok? {
        BegunKeeps(b, customer);
        PostedSame(b.allocations, b.payments, Begun(b, customer).payments, i);
        AllocateAllDrifts(Begun(b, customer), |b.payments|, items, i, drift);
      }
    case DoVoid(p) => if Void(b, p).Ok? { VoidDrifts(b, p, i, drift); }
  }

  lemma {:induction false} RunDrifts(b: Book, ops: seq<Op>, i: nat, drift: int)
    requires Inv(b) && DriftIs(b, i, drift)
    ensures DriftIs(Run(b, ops), i, Drift(b, ops, i, drift))
    decreases |ops|
  {
    if ops != [] {
      ApplyKeeps(b, ops[0]);
      ApplyDrifts(b, ops[0], i, drift);
      RunDrifts(Apply(b, ops[0]), ops[1..], i, DriftAfter(b, ops[0], i, drift));
    }
  }

  /** Over every run: an invoice owes its amount less the posted allocations plus the drift, which only half cents
      accepted on it add to and only voids take from.  So outstanding is exact if and only if that drift is zero. */
  lemma OutstandingDrifts(ops: seq<Op>, i: nat)
    requires i < |Run(Blank, ops).invoices|
    ensures var b := Run(Blank, ops);
      b.invoices[i].outstanding == b.invoices[i].amount - Posted(b.allocations, b.payments, i) + Drift(Blank, ops, i, 0)
  {
    RunDrifts(Blank, ops, i, 0);
  }

  /** Amounts in whole cents always agree. */
  lemma {:induction false} WholeItemsAgree(b: Book, p: nat, items: seq<Item>, i: nat)
    requires p < |b.payments| && AllocateAll(b, p, items).Ok?
    requires forall k :: 0 <= k < |items| ==> items[k].amount == items[k].amount.Floor as real
    ensures ItemsAgree(b, p, items, i)
  {
    if items != [] {
      var before, last := items[..|items| - 1], items[|items| - 1];
      WholeItemsAgree(b, p, before, i);
      if last.invoice == i < |b.invoices| {
        WholeCentsAgree(AllocateAll(b, p, before).value.invoices[i].outstanding, last.amount.Floor);
      }
    }
  }

  // ---- Payment totals ----

  function PaidBy(allocations: seq<Allocation>, p: nat): int {
    if allocations == [] then 0
    else
      var last := allocations[|allocations| - 1];
      PaidBy(allocations[..|allocations| - 1], p) + if last.payment == p then last.amount else 0
  }

  ghost predicate TotalsOk(b: Book) {
    && (forall k :: 0 <= k < |b.allocations| ==> b.allocations[k].payment < |b.payments|)
    && (forall p :: 0 <= p < |b.payments| ==> 0 <= b.payments[p].total == PaidBy(b.allocations, p))
  }

  lemma PaidBySnoc(allocations: seq<Allocation>, a: Allocation, p: nat)
    ensures PaidBy(allocations + [a], p) == PaidBy(allocations, p) + if a.payment == p then a.amount else 0
  {
    assert (allocations + [a])[..|allocations|] == allocations;
  }

  lemma AllocateTotals(b: Book, p: nat, i: nat, x: real)
    requires TotalsOk(b) && p < |b.payments| && Allocate(b, p, i, x).Ok?
    ensures TotalsOk(Allocate(b, p, i, x).value)
  {
    var b' := Allocate(b, p, i, x).value;
    RoundShift(b.payments[p].total, x);
    forall q | 0 <= q < |b'.payments| ensures 0 <= b'.payments[q].total == PaidBy(b'.allocations, q) {
      PaidBySnoc(b.allocations, Allocation(p, i, Round(x)), q);
    }
  }

  lemma {:induction false} AllocateAllTotals(b: Book, p: nat, items: seq<Item>)
    requires TotalsOk(b) && p < |b.payments| && AllocateAll(b, p, items).Ok?
    ensures TotalsOk(AllocateAll(b, p, items).value)
  {
    if items != [] {
      AllocateAllTotals(b, p, items[..|items| - 1]);
      AllocateTotals(AllocateAll(b, p, items[..|items| - 1]).value, p, items[|items| - 1].invoice,
        items[|items| - 1].amount);
    }
  }

  lemma {:induction false} PaidByNone(allocations: seq<Allocation>, p: nat)
    requires forall k :: 0 <= k < |allocations| ==> allocations[k].payment < p
    ensures PaidBy(allocations, p) == 0
  {
    if allocations != [] {
      PaidByNone(allocations[..|allocations| - 1], p);
    }
  }

  lemma ApplyTotals(b: Book, op: Op)
    requires TotalsOk(b)
    ensures TotalsOk(Apply(b, op))
  {
    if op.DoPay? && Record(b, op.customer, op.items).Ok? {
      PaidByNone(b.allocations, |b.payments|);
      AllocateAllTotals(Begun(b, op.customer), |b.payments|, op.items);
    }
  }

  lemma {:induction false} RunTotals(b: Book, ops: seq<Op>)
    requires TotalsOk(b)
    ensures TotalsOk(Run(b, ops))
    decreases |ops|
  {
    if ops != [] {
      ApplyTotals(b, ops[0]);
      RunTotals(Apply(b, ops[0]), ops[1..]);
    }
  }

  /** A payment's own total is always the sum of its allocations, whatever the cents. */
  lemma PaymentTotalIsExact(ops: seq<Op>, p: nat)
    requires p < |Run(Blank, ops).payments|
    ensures var b := Run(Blank, ops); b.payments[p].total == PaidBy(b.allocations, p)
  {
    RunTotals(Blank, ops);
  }

  // ---- The repository ----

  class ReceivablesRepo {
    var invoices: seq<Invoice>
    var payments: seq<Payment>
    var allocations: seq<Allocation>

    function View(): Book
      reads this
    {
      Book(invoices, payments, allocations)
    }

    constructor ()
      ensures View() == Blank
    {
      invoices, payments, allocations := [], [], [];
    }

    method ApplyInvoicePayment(customer: nat, i: nat, x: real) returns (r: Result<(), Error>)
      modifies this`invoices
      ensures r == ApplyError(old(View()), customer, i, x)
      ensures invoices == if r.Ok? then old(invoices)[i := Reduced(old(invoices)[i], x)] else old(invoices)
    {
      if i < |invoices| && invoices[i].customer == customer
         && (invoices[i].status.Issued? || invoices[i].status.PartiallyPaid?) && invoices[i].outstanding as real >= x {
        var rest := invoices[i].outstanding as real - x;
        var status := if rest <= 0.0 then Paid else PartiallyPaid;
        invoices := invoices[i := invoices[i].(outstanding := Round(rest), status := status)];
        return Ok(());
      }
      r := if i < |invoices| && invoices[i].customer != customer then Err(WrongCustomer) else Err(OverAllocated);
    }

    method AddCustomerAllocation(p: nat, i: nat, x: real) returns (added: bool)
      requires p < |payments|
      modifies this`payments, this`allocations
      ensures added <==> Round(x) > 0
      ensures if added
        then allocations == old(allocations) + [Allocation(p, i, Round(x))]
          && payments == old(payments)[p := old(payments)[p].(total := Round(old(payments)[p].total as real + x))]
        else allocations == old(allocations) && payments == old(payments)
    {
      added := Round(x) > 0;
      if added {
        allocations := allocations + [Allocation(p, i, Round(x))];
        payments := payments[p := payments[p].(total := Round(payments[p].total as real + x))];
      }
    }

    /** One allocation; when it is refused the caller rolls back. */
    method AllocateOne(p: nat, i: nat, x: real) returns (r: Result<(), Error>)
      requires p < |payments|
      modifies this
      ensures var spec := Allocate(old(View()), p, i, x);
        && (r.Ok? <==> spec.Ok?) && (r.Err? ==> r.error == spec.error) && (r.Ok? ==> View() == spec.value)
    {
      if x <= 0.0 {
        return Err(BadAmount);
      }
      r := ApplyInvoicePayment(payments[p].customer, i, x);
      if r.Ok? {
        var added := AddCustomerAllocation(p, i, x);
        if !added {
          r := Err(BadAmount);
        }
      }
    }

    /** A payment with its allocations, in one transaction. */
    method RecordPayment(customer: nat, items: seq<Item>) returns (r: Result<nat, Error>)
      modifies this
      ensures View() == Outcome(old(View()), Record(old(View()), customer, items))
      ensures r.Ok? <==> Record(old(View()), customer, items).Ok?
      ensures if r.Ok? then r.value == |old(payments)| else r.error == Record(old(View()), customer, items).error
    {
      var invoices0, payments0, allocations0 := invoices, payments, allocations;
      var p := |payments|;
      payments := payments + [Payment(customer, 0, false)];
      ghost var begun := View();
      for k := 0 to |items|
        invariant p < |payments|
        invariant AllocateAll(begun, p, items[..k]) == Ok(View())
      {
        assert items[..k + 1][..k] == items[..k];
        var allocation := AllocateOne(p, items[k].invoice, items[k].amount);
        if allocation.Err? {
          RefusedAtOnce(begun, p, items, k);
          invoices, payments, allocations := invoices0, payments0, allocations0;
          return Err(allocation.error);
        }
      }
      assert items[..|items|] == items;
      r := Ok(p);
    }

    /** Gives back each allocation, capped at the invoice's amount, and marks the payment voided. */
    method ReverseCustomerPayment(p: nat) returns (r: Result<(), Error>)
      modifies this
      ensures View() == Outcome(old(View()), Void(old(View()), p))
      ensures r.Ok? <==> Void(old(View()), p).Ok?
      ensures r.Err? ==> r.error == Void(old(View()), p).error
    {
      if p >= |payments| {
        return Err(NotFound);
      }
      if payments[p].voided {
        return Err(NotReversible);
      }
      for k := 0 to |allocations|
        invariant payments == old(payments) && allocations == old(allocations)
        invariant |invoices| == |old(invoices)| && invoices == RestoreAll(old(invoices), allocations[..k], p)
      {
        assert allocations[..k + 1][..k] == allocations[..k];
        var a := allocations[k];
        if a.payment == p && a.invoice < |invoices| {
          var o := Min(invoices[a.invoice].outstanding + a.amount, invoices[a.invoice].amount);
          var status := if o >= invoices[a.invoice].amount then Issued else PartiallyPaid;
          invoices := invoices[a.invoice := invoices[a.invoice].(outstanding := o, status := status)];
        }
      }
      assert allocations[..|allocations|] == allocations;
      payments := payments[p := payments[p].(voided := true)];
      r := Ok(());
    }
  }

  lemma {:induction false} RefusedAtOnce(b: Book, p: nat, items: seq<Item>, k: nat)
    requires p < |b.payments| && k < |items| && AllocateAll(b, p, items[..k + 1]).Err?
    ensures AllocateAll(b, p, items) == AllocateAll(b, p, items[..k + 1])
  {
    if k + 1 < |items| {
      assert items[..|items| - 1][..k + 1] == items[..k + 1];
      RefusedAtOnce(b, p, items[..|items| - 1], k);
    } else {
      assert items[..k + 1] == items;
    }
  }
}

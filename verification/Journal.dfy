/** The double-entry journal and the period lifecycle, run serially.

Amounts are in cents.  An entry's number and a period's id are their positions.  Posting resolves the
period that covers the date, inserts the entry and its lines, and checks the balance at the end.
 */
module Journal {
  import opened Numeric
  import opened Wrappers

  datatype Error = NoLines | NoPeriod | PeriodLocked | PeriodClosed | UnknownAccount | BadAmounts | Unbalanced
                 | EntryNotFound | AlreadyReversed | PeriodOverlap | BadDates | PeriodNotFound | BadTransition

  datatype AccountType = Asset | ContraAsset | Liability | Equity | Income | ContraIncome | Expense

  datatype PeriodStatus = Open | Closing | Closed | Locked

  datatype Period = Period(start: int, end: int, status: PeriodStatus)

  datatype Line = Line(account: nat, debit: int, credit: int)

  /** A line as the caller writes it, before its amounts are cast to the column. */
  datatype RawLine = RawLine(account: nat, debit: real, credit: real)

  datatype Entry = Entry(date: int, lines: seq<Line>, reversed: bool, reverses: Option<nat>)

  datatype Book = Book(accounts: map<nat, AccountType>, periods: seq<Period>, entries: seq<Entry>)

  const Blank := Book(map[], [], [])

  // ---- Periods ----

  predicate Covers(p: Period, date: int) {
    p.start <= date <= p.end
  }

  predicate Overlaps(p: Period, start: int, end: int) {
    p.start <= end && start <= p.end
  }

  function WithPeriod(b: Book, start: int, end: int): Result<Book, Error> {
    if end < start then Err(BadDates)
    else if exists i :: 0 <= i < |b.periods| && Overlaps(b.periods[i], start, end) then Err(PeriodOverlap)
    else Ok(b.(periods := b.periods + [Period(start, end, Open)]))
  }

  /** The four edges: start close, close, reopen, lock. */
  predicate Edge(from: PeriodStatus, to: PeriodStatus) {
    (from.Open? && to.Closing?) || (from.Closing? && to.Closed?) || (from.Closed? && to.Open?)
      || (from.Closed? && to.Locked?)
  }

  function WithTransition(b: Book, id: nat, from: PeriodStatus, to: PeriodStatus): Result<Book, Error> {
    if id >= |b.periods| then Err(PeriodNotFound)
    else if b.periods[id].status != from || !Edge(from, to) then Err(BadTransition)
    else Ok(b.(periods := b.periods[id := b.periods[id].(status := to)]))
  }

  function FindPeriod(periods: seq<Period>, date: int): (i: nat)
    ensures i <= |periods|
    ensures i < |periods| ==> Covers(periods[i], date)
    ensures forall j :: 0 <= j < i ==> !Covers(periods[j], date)
  {
    if periods == [] || Covers(periods[0], date) then 0 else 1 + FindPeriod(periods[1..], date)
  }

  /** Locked periods take nothing, closed ones only adjustments. */
  function PostingError(b: Book, date: int, allowClosed: bool): Option<Error> {
    var i := FindPeriod(b.periods, date);
    if i == |b.periods| then Some(NoPeriod)
    else if b.periods[i].status.Locked? then Some(PeriodLocked)
    else if b.periods[i].status.Closed? && !allowClosed then Some(PeriodClosed)
    else None
  }

  // ---- Entries ----

  function Debits(lines: seq<Line>): int {
    if lines == [] then 0 else Debits(lines[..|lines| - 1]) + lines[|lines| - 1].debit
  }

  function Credits(lines: seq<Line>): int {
    if lines == [] then 0 else Credits(lines[..|lines| - 1]) + lines[|lines| - 1].credit
  }

  predicate AmountsOk(l: Line) {
    l.debit >= 0 && l.credit >= 0 && !(l.debit > 0 && l.credit > 0)
  }

  function StoredLine(l: RawLine): Line {
    Line(l.account, Round(l.debit), Round(l.credit))
  }

  function Stored(raw: seq<RawLine>): (lines: seq<Line>)
    ensures |lines| == |raw| && forall i :: 0 <= i < |raw| ==> lines[i] == StoredLine(raw[i])
  {
    seq(|raw|, i requires 0 <= i < |raw| => StoredLine(raw[i]))
  }

  /** The first line that a constraint refuses. */
  function LineError(b: Book, lines: seq<Line>): Option<Error> {
    if lines == [] then None
    else
      var earlier, l := LineError(b, lines[..|lines| - 1]), lines[|lines| - 1];
      if earlier.Some? then earlier
      else if l.account !in b.accounts then Some(UnknownAccount)
      else if !AmountsOk(l) then Some(BadAmounts)
      else None
  }

  predicate Balanced(lines: seq<Line>) {
    Debits(lines) == Credits(lines) && Debits(lines) > 0
  }

  function WithEntry(b: Book, date: int, lines: seq<Line>, allowClosed: bool): Result<Book, Error> {
    if lines == [] then Err(NoLines)
    else if PostingError(b, date, allowClosed).Some? then Err(PostingError(b, date, allowClosed).value)
    else if LineError(b, lines).Some? then Err(LineError(b, lines).value)
    else if !Balanced(lines) then Err(Unbalanced)
    else Ok(b.(entries := b.entries + [Entry(date, lines, false, None)]))
  }

  function Swapped(lines: seq<Line>): (out: seq<Line>)
    ensures |out| == |lines|
    ensures forall i :: 0 <= i < |lines| ==> out[i] == Line(lines[i].account, lines[i].credit, lines[i].debit)
  {
    if lines == [] then []
    else
      var l := lines[|lines| - 1];
      Swapped(lines[..|lines| - 1]) + [Line(l.account, l.credit, l.debit)]
  }

  function WithReversal(b: Book, n: nat): Result<Book, Error> {
    if n >= |b.entries| then Err(EntryNotFound)
    else if b.entries[n].reversed then Err(AlreadyReversed)
    else if PostingError(b, b.entries[n].date, true).Some? then Err(PostingError(b, b.entries[n].date, true).value)
    else
      var rev := Entry(b.entries[n].date, Swapped(b.entries[n].lines), false, Some(n));
      Ok(b.(entries := b.entries[n := b.entries[n].(reversed := true)] + [rev]))
  }

  datatype Op =
    | AddAccount(id: nat, typ: AccountType)
    | NewPeriod(start: int, end: int)
    | Move(id: nat, from: PeriodStatus, to: PeriodStatus)
    | Post(date: int, lines: seq<Line>, allowClosed: bool)
    | Reverse(n: nat)

  function Outcome(b: Book, r: Result<Book, Error>): Book {
    if r.Ok? then r.value else b
  }

  function Apply(b: Book, op: Op): Book {
    match op
    case AddAccount(id, typ) => if id in b.accounts then b else b.(accounts := b.accounts[id := typ])
    case NewPeriod(start, end) => Outcome(b, WithPeriod(b, start, end))
    case Move(id, from, to) => Outcome(b, WithTransition(b, id, from, to))
    case Post(date, lines, allowClosed) => Outcome(b, WithEntry(b, date, lines, allowClosed))
    case Reverse(n) => Outcome(b, WithReversal(b, n))
  }

  function Run(b: Book, ops: seq<Op>): Book
    decreases |ops|
  {
    if ops == [] then b else Run(Apply(b, ops[0]), ops[1..])
  }

  // ---- Invariant ----

  ghost predicate EntryOk(b: Book, e: Entry) {
    && Debits(e.lines) == Credits(e.lines)
    && (forall i :: 0 <= i < |e.lines| ==> e.lines[i].account in b.accounts && AmountsOk(e.lines[i]))
  }

  ghost predicate EntriesOk(b: Book) {
    forall i :: 0 <= i < |b.entries| ==> EntryOk(b, b.entries[i])
  }

  ghost predicate PeriodsApart(periods: seq<Period>) {
    && (forall i :: 0 <= i < |periods| ==> periods[i].start <= periods[i].end)
    && forall i, j :: 0 <= i < j < |periods| ==> !Overlaps(periods[i], periods[j].start, periods[j].end)
  }

  /** A reversal follows what it reverses, on the same date, with its lines swapped. */
  ghost predicate ReversalOk(entries: seq<Entry>, i: nat)
    requires i < |entries|
  {
    entries[i].reverses.Some? ==>
      var n := entries[i].reverses.value;
      n < i && entries[i].date == entries[n].date && entries[i].lines == Swapped(entries[n].lines)
  }

  ghost predicate ReversalsOk(entries: seq<Entry>) {
    forall i :: 0 <= i < |entries| ==> ReversalOk(entries, i)
  }

  ghost predicate Inv(b: Book) {
    EntriesOk(b) && PeriodsApart(b.periods) && ReversalsOk(b.entries)
  }

  lemma {:induction false} SwappedSums(lines: seq<Line>)
    ensures Debits(Swapped(lines)) == Credits(lines) && Credits(Swapped(lines)) == Debits(lines)
  {
    if lines != [] {
      SwappedSums(lines[..|lines| - 1]);
      assert Swapped(lines)[..|lines| - 1] == Swapped(lines[..|lines| - 1]);
    }
  }

  lemma {:induction false} NoLineError(b: Book, lines: seq<Line>)
    requires LineError(b, lines).None?
    ensures forall i :: 0 <= i < |lines| ==> lines[i].account in b.accounts && AmountsOk(lines[i])
  {
    if lines != [] {
      NoLineError(b, lines[..|lines| - 1]);
    }
  }

  /** Posted entries keep date, lines and link; only the reversed flag may rise. */
  ghost predicate Extends(before: seq<Entry>, after: seq<Entry>) {
    |before| <= |after| && forall i :: 0 <= i < |before| ==>
      after[i] == before[i] || after[i] == before[i].(reversed := true)
  }

  lemma ReversalsExtend(before: seq<Entry>, after: seq<Entry>)
    requires ReversalsOk(before) && Extends(before, after)
    requires forall i :: |before| <= i < |after| ==> ReversalOk(after, i)
    ensures ReversalsOk(after)
  {
    forall i | 0 <= i < |after| ensures ReversalOk(after, i) {
      if i < |before| {
        assert ReversalOk(before, i);
      }
    }
  }

  lemma PostKeeps(b: Book, date: int, lines: seq<Line>, allowClosed: bool)
    requires Inv(b) && WithEntry(b, date, lines, allowClosed).Ok?
    ensures Inv(WithEntry(b, date, lines, allowClosed).value)
  {
    var b' := WithEntry(b, date, lines, allowClosed).value;
    NoLineError(b, lines);
    forall i | 0 <= i < |b'.entries| ensures EntryOk(b', b'.entries[i]) {
      assert i < |b.entries| ==> EntryOk(b, b.entries[i]);
    }
    ReversalsExtend(b.entries, b'.entries);
  }

  lemma SwappedOk(b: Book, e: Entry, rev: Entry)
    requires EntryOk(b, e) && rev.lines == Swapped(e.lines)
    ensures EntryOk(b, rev)
  {
    SwappedSums(e.lines);
  }

  lemma SameLinesOk(b: Book, b': Book, e: Entry, e': Entry)
    requires EntryOk(b, e) && e'.lines == e.lines && b'.accounts == b.accounts
    ensures EntryOk(b', e')
  {
  }

  lemma ReverseKeepsEntries(b: Book, n: nat)
    requires EntriesOk(b) && WithReversal(b, n).Ok?
    ensures EntriesOk(WithReversal(b, n).value)
  {
    var b' := WithReversal(b, n).value;
    forall i | 0 <= i < |b'.entries| ensures EntryOk(b', b'.entries[i]) {
      if i < |b.entries| {
        SameLinesOk(b, b', b.entries[i], b'.entries[i]);
      } else {
        SameLinesOk(b, b', b.entries[n], b.entries[n]);
        SwappedOk(b', b.entries[n], b'.entries[i]);
      }
    }
  }

  lemma ReverseKeeps(b: Book, n: nat)
    requires Inv(b) && WithReversal(b, n).Ok?
    ensures Inv(WithReversal(b, n).value)
  {
    ReverseKeepsEntries(b, n);
    ReversalsExtend(b.entries, WithReversal(b, n).value.entries);
  }

  lemma ApplyKeeps(b: Book, op: Op)
    requires Inv(b)
    ensures Inv(Apply(b, op))
  {
    match op
    case AddAccount(id, typ) =>
      forall i | 0 <= i < |b.entries| ensures EntryOk(Apply(b, op), b.entries[i]) {
        assert EntryOk(b, b.entries[i]);
      }
    case NewPeriod(start, end) => SameEntries(b, Apply(b, op));
    case Move(id, from, to) => SameEntries(b, Apply(b, op));
    case Post(date, lines, allowClosed) =>
      if WithEntry(b, date, lines, allowClosed).Ok? { PostKeeps(b, date, lines, allowClosed); }
    case Reverse(n) => if WithReversal(b, n).Ok? { ReverseKeeps(b, n); }
  }

  lemma SameEntries(b: Book, b': Book)
    requires EntriesOk(b) && b' == b.(periods := b'.periods)
    ensures EntriesOk(b')
  {
    forall i | 0 <= i < |b.entries| ensures EntryOk(b', b'.entries[i]) {
      assert EntryOk(b, b.entries[i]);
    }
  }

  lemma {:induction false} RunKeeps(b: Book, ops: seq<Op>)
    requires Inv(b)
    ensures Inv(Run(b, ops))
    decreases |ops|
  {
    if ops != [] {
      ApplyKeeps(b, ops[0]);
      RunKeeps(Apply(b, ops[0]), ops[1..]);
    }
  }

  // ---- What posting does to the accounts ----

  function LineDebits(lines: seq<Line>, account: nat): int {
    if lines == [] then 0
    else
      var l := lines[|lines| - 1];
      LineDebits(lines[..|lines| - 1], account) + if l.account == account then l.debit else 0
  }

  function LineCredits(lines: seq<Line>, account: nat): int {
    if lines == [] then 0
    else
      var l := lines[|lines| - 1];
      LineCredits(lines[..|lines| - 1], account) + if l.account == account then l.credit else 0
  }

  /** All debits on an account. */
  function DebitsOn(entries: seq<Entry>, account: nat): int {
    if entries == [] then 0
    else DebitsOn(entries[..|entries| - 1], account) + LineDebits(entries[|entries| - 1].lines, account)
  }

  function CreditsOn(entries: seq<Entry>, account: nat): int {
    if entries == [] then 0
    else CreditsOn(entries[..|entries| - 1], account) + LineCredits(entries[|entries| - 1].lines, account)
  }

  /** What the caller asked to debit the account with, in cents. */
  function AskedDebits(raw: seq<RawLine>, account: nat): int {
    if raw == [] then 0
    else
      var l := raw[|raw| - 1];
      AskedDebits(raw[..|raw| - 1], account) + if l.account == account then Round(l.debit) else 0
  }

  function AskedCredits(raw: seq<RawLine>, account: nat): int {
    if raw == [] then 0
    else
      var l := raw[|raw| - 1];
      AskedCredits(raw[..|raw| - 1], account) + if l.account == account then Round(l.credit) else 0
  }

  lemma {:induction false} StoredSides(raw: seq<RawLine>, account: nat)
    ensures LineDebits(Stored(raw), account) == AskedDebits(raw, account)
    ensures LineCredits(Stored(raw), account) == AskedCredits(raw, account)
  {
    if raw != [] {
      StoredSides(raw[..|raw| - 1], account);
      assert Stored(raw)[..|raw| - 1] == Stored(raw[..|raw| - 1]);
    }
  }

  lemma SidesSnoc(entries: seq<Entry>, e: Entry, account: nat)
    ensures DebitsOn(entries + [e], account) == DebitsOn(entries, account) + LineDebits(e.lines, account)
    ensures CreditsOn(entries + [e], account) == CreditsOn(entries, account) + LineCredits(e.lines, account)
  {
    assert (entries + [e])[..|entries|] == entries;
  }

  /** An accepted entry debits and credits each account with exactly what the caller asked, in cents. */
  lemma PostingLands(b: Book, date: int, raw: seq<RawLine>, allowClosed: bool, account: nat)
    requires WithEntry(b, date, Stored(raw), allowClosed).Ok?
    ensures var b' := WithEntry(b, date, Stored(raw), allowClosed).value;
      && DebitsOn(b'.entries, account) == DebitsOn(b.entries, account) + AskedDebits(raw, account)
      && CreditsOn(b'.entries, account) == CreditsOn(b.entries, account) + AskedCredits(raw, account)
  {
    SidesSnoc(b.entries, Entry(date, Stored(raw), false, None), account);
    StoredSides(raw, account);
  }

  /** A reversal credits each account with what the original debited, and the other way round. */
  lemma ReversalLands(b: Book, n: nat, account: nat)
    requires WithReversal(b, n).Ok?
    ensures n < |b.entries|
    ensures var b', lines := WithReversal(b, n).value, b.entries[n].lines;
      && DebitsOn(b'.entries, account) == DebitsOn(b.entries, account) + LineCredits(lines, account)
      && CreditsOn(b'.entries, account) == CreditsOn(b.entries, account) + LineDebits(lines, account)
  {
    var e := b.entries[n];
    SidesSnoc(b.entries[n := e.(reversed := true)], Entry(e.date, Swapped(e.lines), false, Some(n)), account);
    SidesMarked(b.entries, n, account);
    SwappedSides(e.lines, account);
  }

  lemma {:induction false} SidesMarked(entries: seq<Entry>, n: nat, account: nat)
    requires n < |entries|
    ensures var marked := entries[n := entries[n].(reversed := true)];
      && DebitsOn(marked, account) == DebitsOn(entries, account)
      && CreditsOn(marked, account) == CreditsOn(entries, account)
  {
    var marked, before := entries[n := entries[n].(reversed := true)], entries[..|entries| - 1];
    if n == |entries| - 1 {
      assert marked[..|entries| - 1] == before;
    } else {
      SidesMarked(before, n, account);
      assert marked[..|entries| - 1] == before[n := before[n].(reversed := true)];
    }
  }

  lemma {:induction false} SwappedSides(lines: seq<Line>, account: nat)
    ensures LineDebits(Swapped(lines), account) == LineCredits(lines, account)
    ensures LineCredits(Swapped(lines), account) == LineDebits(lines, account)
  {
    if lines != [] {
      SwappedSides(lines[..|lines| - 1], account);
      assert Swapped(lines)[..|lines| - 1] == Swapped(lines[..|lines| - 1]);
    }
  }

  // ---- When an operation is accepted ----

  /** Some period has the day and takes postings: it is not locked, and closed only for an adjustment. */
  ghost predicate DayOpen(b: Book, date: int, allowClosed: bool) {
    exists i :: 0 <= i < |b.periods| && TakesDay(b.periods[i], date, allowClosed)
  }

  predicate TakesDay(p: Period, date: int, allowClosed: bool) {
    p.start <= date <= p.end && !p.status.Locked? && (p.status.Closed? ==> allowClosed)
  }

  lemma PostingOpen(b: Book, date: int, allowClosed: bool)
    requires PeriodsApart(b.periods)
    ensures PostingError(b, date, allowClosed).None? <==> DayOpen(b, date, allowClosed)
  {
    var i := FindPeriod(b.periods, date);
    if j :| 0 <= j < |b.periods| && TakesDay(b.periods[j], date, allowClosed) {
      assert i <= j;
      assert i < j ==> !Overlaps(b.periods[i], b.periods[j].start, b.periods[j].end);
    }
  }

  /** The account is known and one side of the line is zero, the other not negative, in cents. */
  predicate LineFits(b: Book, l: RawLine) {
    var debit, credit := Round(l.debit), Round(l.credit);
    l.account in b.accounts && ((debit == 0 && credit >= 0) || (credit == 0 && debit >= 0))
  }

  lemma {:induction false} LinesFit(b: Book, raw: seq<RawLine>)
    ensures LineError(b, Stored(raw)).None? <==> forall i :: 0 <= i < |raw| ==> LineFits(b, raw[i])
  {
    if raw != [] {
      LinesFit(b, raw[..|raw| - 1]);
      assert Stored(raw)[..|raw| - 1] == Stored(raw[..|raw| - 1]);
      assert forall i :: 0 <= i < |raw| - 1 ==> raw[..|raw| - 1][i] == raw[i];
    }
  }

  function RawDebits(raw: seq<RawLine>): int {
    if raw == [] then 0 else RawDebits(raw[..|raw| - 1]) + Round(raw[|raw| - 1].debit)
  }

  function RawCredits(raw: seq<RawLine>): int {
    if raw == [] then 0 else RawCredits(raw[..|raw| - 1]) + Round(raw[|raw| - 1].credit)
  }

  lemma {:induction false} StoredSums(raw: seq<RawLine>)
    ensures Debits(Stored(raw)) == RawDebits(raw) && Credits(Stored(raw)) == RawCredits(raw)
  {
    if raw != [] {
      StoredSums(raw[..|raw| - 1]);
      assert Stored(raw)[..|raw| - 1] == Stored(raw[..|raw| - 1]);
    }
  }

  /** An entry is accepted if and only if its day is open, every line fits, and the two sides come to the same positive
      amount. */
  lemma PostedIff(ops: seq<Op>, date: int, raw: seq<RawLine>, allowClosed: bool)
    ensures var b := Run(Blank, ops);
      WithEntry(b, date, Stored(raw), allowClosed).Ok?
      <==> && DayOpen(b, date, allowClosed) && (forall i :: 0 <= i < |raw| ==> LineFits(b, raw[i]))
           && RawDebits(raw) == RawCredits(raw) > 0
  {
    var b := Run(Blank, ops);
    RunKeeps(Blank, ops);
    PostingOpen(b, date, allowClosed);
    LinesFit(b, raw);
    StoredSums(raw);
  }

  /** An entry is marked reversed exactly when another entry reverses it, and none is reversed twice. */
  ghost predicate ReversedOnce(entries: seq<Entry>) {
    && (forall n :: 0 <= n < |entries| ==> (entries[n].reversed <==> HasReversal(entries, n)))
    && forall i, j :: 0 <= i < j < |entries| && entries[i].reverses.Some? ==> entries[i].reverses != entries[j].reverses
  }

  ghost predicate HasReversal(entries: seq<Entry>, n: nat) {
    exists i :: 0 <= i < |entries| && entries[i].reverses == Some(n)
  }

  lemma PostKeepsOnce(entries: seq<Entry>, e: Entry)
    requires ReversedOnce(entries) && ReversalsOk(entries) && !e.reversed && e.reverses.None?
    ensures ReversedOnce(entries + [e])
  {
    var after := entries + [e];
    forall n | 0 <= n < |after| ensures after[n].reversed <==> HasReversal(after, n) {
      if n < |entries| && HasReversal(entries, n) {
        var i :| 0 <= i < |entries| && entries[i].reverses == Some(n);
        assert after[i].reverses == Some(n);
      }
      if i :| 0 <= i < |after| && after[i].reverses == Some(n) {
        assert entries[i].reverses == Some(n) && ReversalOk(entries, i);
      }
    }
  }

  lemma ReverseKeepsOnce(entries: seq<Entry>, n: nat, e: Entry)
    requires n < |entries| && ReversedOnce(entries) && ReversalsOk(entries)
    requires !entries[n].reversed && !e.reversed && e.reverses == Some(n)
    ensures ReversedOnce(entries[n := entries[n].(reversed := true)] + [e])
  {
    var after := entries[n := entries[n].(reversed := true)] + [e];
    assert forall i :: 0 <= i < |entries| ==> after[i].reverses == entries[i].reverses;
    forall m | 0 <= m < |after| ensures after[m].reversed <==> HasReversal(after, m) {
      if m == n {
        assert after[|entries|].reverses == Some(n);
      } else {
        if m < |entries| && HasReversal(entries, m) {
          var i :| 0 <= i < |entries| && entries[i].reverses == Some(m);
          assert after[i].reverses == Some(m);
        }
        if i :| 0 <= i < |after| && after[i].reverses == Some(m) {
          assert entries[i].reverses == Some(m) && ReversalOk(entries, i);
        }
      }
    }
  }

  lemma ApplyKeepsOnce(b: Book, op: Op)
    requires Inv(b) && ReversedOnce(b.entries)
    ensures ReversedOnce(Apply(b, op).entries)
  {
    match op
    case AddAccount(id, typ) =>
    case NewPeriod(start, end) =>
    case Move(id, from, to) =>
    case Post(date, lines, allowClosed) => PostKeepsOnce(b.entries, Entry(date, lines, false, None));
    case Reverse(n) =>
      if WithReversal(b, n).Ok? {
        ReverseKeepsOnce(b.entries, n, Entry(b.entries[n].date, Swapped(b.entries[n].lines), false, Some(n)));
      }
  }

  lemma {:induction false} RunKeepsOnce(b: Book, ops: seq<Op>)
    requires Inv(b) && ReversedOnce(b.entries)
    ensures ReversedOnce(Run(b, ops).entries)
    decreases |ops|
  {
    if ops != [] {
      ApplyKeeps(b, ops[0]);
      ApplyKeepsOnce(b, ops[0]);
      RunKeepsOnce(Apply(b, ops[0]), ops[1..]);
    }
  }

  /** An entry can be reversed if and only if no entry reverses it yet and its day is in a period that is not locked;
      and no entry is ever reversed twice. */
  lemma ReversedIff(ops: seq<Op>, n: nat)
    ensures var b := Run(Blank, ops);
      var r := WithReversal(b, n);
      && ReversedOnce(b.entries)
      && (r.Ok? <==> n < |b.entries| && !HasReversal(b.entries, n) && DayOpen(b, b.entries[n].date, true))
      && (r.Ok? ==> HasReversal(r.value.entries, n))
  {
    var b := Run(Blank, ops);
    RunKeeps(Blank, ops);
    RunKeepsOnce(Blank, ops);
    if n < |b.entries| {
      PostingOpen(b, b.entries[n].date, true);
    }
    if WithReversal(b, n).Ok? {
      assert WithReversal(b, n).value.entries[|b.entries|].reverses == Some(n);
    }
  }

  lemma {:induction false} RunSnoc(b: Book, ops: seq<Op>, op: Op)
    ensures Run(b, ops + [op]) == Apply(Run(b, ops), op)
    decreases |ops|
  {
    if ops == [] {
      assert ([op])[1..] == [];
    } else {
      assert (ops + [op])[1..] == ops[1..] + [op];
      RunSnoc(Apply(b, ops[0]), ops[1..], op);
    }
  }

  /** Somewhere along the run the period has the status. */
  ghost predicate Passed(ops: seq<Op>, id: nat, status: PeriodStatus) {
    exists k :: 0 <= k <= |ops| && HasStatus(ops[..k], id, status)
  }

  ghost predicate HasStatus(ops: seq<Op>, id: nat, status: PeriodStatus) {
    var periods := Run(Blank, ops).periods;
    id < |periods| && periods[id].status == status
  }

  lemma PassedMore(ops: seq<Op>, op: Op, id: nat, status: PeriodStatus)
    ensures Passed(ops, id, status) ==> Passed(ops + [op], id, status)
    ensures HasStatus(ops, id, status) ==> Passed(ops, id, status)
  {
    assert ops[..|ops|] == ops;
    if Passed(ops, id, status) {
      var k :| 0 <= k <= |ops| && HasStatus(ops[..k], id, status);
      assert (ops + [op])[..k] == ops[..k];
    }
  }

  lemma StatusStep(b: Book, op: Op, id: nat)
    ensures var was, now := b.periods, Apply(b, op).periods;
      && |was| <= |now|
      && (id < |was| && was[id].status.Locked? ==> now[id].status.Locked?)
      && (id < |now| && now[id].status.Locked? ==> id < |was| && (was[id].status.Locked? || was[id].status.Closed?))
      && (id < |now| && now[id].status.Closed? ==> id < |was| && (was[id].status.Closed? || was[id].status.Closing?))
  {
  }

  lemma PassedLocked(before: seq<Op>, op: Op, id: nat)
    requires Passed(before + [op], id, Locked) && (Passed(before, id, Locked) ==> HasStatus(before, id, Locked))
    ensures HasStatus(before, id, Locked) || HasStatus(before + [op], id, Locked)
  {
    var ops := before + [op];
    var k :| 0 <= k <= |ops| && HasStatus(ops[..k], id, Locked);
    if k < |ops| {
      assert ops[..k] == before[..k];
    } else {
      assert ops[..k] == ops;
    }
  }

  /** A period is closed only after it was closing, and locked only after it was closed; once locked it stays so. */
  lemma {:induction false} LifeOfPeriod(ops: seq<Op>, id: nat)
    ensures HasStatus(ops, id, Closed) ==> Passed(ops, id, Closing)
    ensures HasStatus(ops, id, Locked) ==> Passed(ops, id, Closing) && Passed(ops, id, Closed)
    ensures Passed(ops, id, Locked) ==> HasStatus(ops, id, Locked)
  {
    if ops == [] {
      assert forall k :: 0 <= k <= |ops| ==> ops[..k] == [];
    } else {
      var before, op := ops[..|ops| - 1], ops[|ops| - 1];
      assert ops == before + [op];
      RunSnoc(Blank, before, op);
      LifeOfPeriod(before, id);
      StatusStep(Run(Blank, before), op, id);
      PassedMore(before, op, id, Closing);
      PassedMore(before, op, id, Closed);
      if Passed(ops, id, Locked) {
        PassedLocked(before, op, id);
      }
    }
  }

  /** A period moves exactly along the four edges, from the status it has, and nothing else changes. */
  lemma MovedIff(b: Book, id: nat, from: PeriodStatus, to: PeriodStatus)
    ensures var r := WithTransition(b, id, from, to);
      && (r.Ok? <==> && id < |b.periods| && b.periods[id].status == from
                     && (from, to) in {(Open, Closing), (Closing, Closed), (Closed, Open), (Closed, Locked)})
      && (r.Ok? ==>
            && r.value == b.(periods := r.value.periods)
            && r.value.periods == b.periods[id := Period(b.periods[id].start, b.periods[id].end, to)])
  {
  }

  // ---- The repository ----

  class JournalRepo {
    var accounts: map<nat, AccountType>
    var periods: seq<Period>
    var entries: seq<Entry>

    function View(): Book
      reads this
    {
      Book(accounts, periods, entries)
    }

    constructor ()
      ensures View() == Blank
    {
      accounts, periods, entries := map[], [], [];
    }

    /** Inserts the entry, then its lines one by one, then checks the balance; any refusal undoes it all. */
    method PostEntry(date: int, raw: seq<RawLine>, allowClosed: bool) returns (r: Result<nat, Error>)
      modifies this`entries
      ensures var spec := WithEntry(old(View()), date, Stored(raw), allowClosed);
        && View() == Outcome(old(View()), spec)
        && (r.Ok? <==> spec.Ok?) && (r.Err? ==> r.error == spec.error) && (r.Ok? ==> r.value == |old(entries)|)
      ensures r.Ok? ==> forall account ::
        && DebitsOn(entries, account) == old(DebitsOn(entries, account)) + AskedDebits(raw, account)
        && CreditsOn(entries, account) == old(CreditsOn(entries, account)) + AskedCredits(raw, account)
    {
      if |raw| == 0 {
        return Err(NoLines);
      }
      var refused := PostingError(View(), date, allowClosed);
      if refused.Some? {
        return Err(refused.value);
      }
      ghost var lines := Stored(raw);
      var before := entries;
      entries := entries + [Entry(date, [], false, None)];
      for i := 0 to |raw|
        invariant entries == before + [Entry(date, lines[..i], false, None)]
        invariant LineError(old(View()), lines[..i]).None?
      {
        assert lines[..i + 1][..i] == lines[..i];
        var l := Line(raw[i].account, Round(raw[i].debit), Round(raw[i].credit));
        if l.account !in accounts {
          FirstError(old(View()), lines, i);
          entries := before;
          return Err(UnknownAccount);
        }
        if !AmountsOk(l) {
          FirstError(old(View()), lines, i);
          entries := before;
          return Err(BadAmounts);
        }
        var inserted := entries[|before|].lines + [l];
        assert inserted == lines[..i + 1];
        entries := entries[|before| := Entry(date, inserted, false, None)];
      }
      assert lines[..|lines|] == lines;
      if !Balanced(entries[|before|].lines) {
        entries := before;
        return Err(Unbalanced);
      }
      forall account
        ensures DebitsOn(entries, account) == old(DebitsOn(entries, account)) + AskedDebits(raw, account)
        ensures CreditsOn(entries, account) == old(CreditsOn(entries, account)) + AskedCredits(raw, account)
      {
        PostingLands(old(View()), date, raw, allowClosed, account);
      }
      r := Ok(|before|);
    }

    /** Posts the swapped lines on the original's date and marks the original. */
    method ReverseEntry(n: nat) returns (r: Result<nat, Error>)
      modifies this`entries
      ensures var spec := WithReversal(old(View()), n);
        && View() == Outcome(old(View()), spec)
        && (r.Ok? <==> spec.Ok?) && (r.Err? ==> r.error == spec.error) && (r.Ok? ==> r.value == |old(entries)|)
    {
      if n >= |entries| {
        return Err(EntryNotFound);
      }
      if entries[n].reversed {
        return Err(AlreadyReversed);
      }
      var refused := PostingError(View(), entries[n].date, true);
      if refused.Some? {
        return Err(refused.value);
      }
      var swapped: seq<Line> := [];
      for i := 0 to |entries[n].lines|
        invariant entries == old(entries)
        invariant |swapped| == i
        invariant forall j :: 0 <= j < i ==> swapped[j] == Swapped(entries[n].lines)[j]
      {
        var l := entries[n].lines[i];
        swapped := swapped + [Line(l.account, l.credit, l.debit)];
      }
      assert swapped == Swapped(entries[n].lines);
      var id := |entries|;
      entries := entries + [Entry(entries[n].date, swapped, false, Some(n))];
      entries := entries[n := entries[n].(reversed := true)];
      r := Ok(id);
    }

    method CreatePeriod(start: int, end: int) returns (r: Result<nat, Error>)
      modifies this`periods
      ensures View() == Outcome(old(View()), WithPeriod(old(View()), start, end))
      ensures r.Ok? <==> WithPeriod(old(View()), start, end).Ok?
      ensures if r.Ok? then r.value == |old(periods)| else r.error == WithPeriod(old(View()), start, end).error
    {
      if end < start {
        return Err(BadDates);
      }
      for i := 0 to |periods|
        invariant periods == old(periods)
        invariant forall j :: 0 <= j < i ==> !Overlaps(periods[j], start, end)
      {
        if Overlaps(periods[i], start, end) {
          return Err(PeriodOverlap);
        }
      }
      r := Ok(|periods|);
      periods := periods + [Period(start, end, Open)];
    }

    method Transition(id: nat, from: PeriodStatus, to: PeriodStatus) returns (r: Result<Period, Error>)
      requires Edge(from, to)
      modifies this`periods
      ensures View() == Outcome(old(View()), WithTransition(old(View()), id, from, to))
      ensures r.Ok? <==> WithTransition(old(View()), id, from, to).Ok?
      ensures r.Ok? ==> id < |periods| && r.value == periods[id] && r.value.status == to
      ensures r.Err? ==> r.error == if id < |old(periods)| then BadTransition else PeriodNotFound
    {
      if id < |periods| && periods[id].status == from {
        periods := periods[id := periods[id].(status := to)];
        return Ok(periods[id]);
      }
      r := Err(if id < |periods| then BadTransition else PeriodNotFound);
    }
  }

  lemma {:induction false} FirstError(b: Book, lines: seq<Line>, i: nat)
    requires i < |lines| && LineError(b, lines[..i]).None? && LineError(b, lines[..i + 1]).Some?
    ensures LineError(b, lines) == LineError(b, lines[..i + 1])
  {
    if i + 1 < |lines| {
      var shorter := lines[..|lines| - 1];
      assert shorter[..i] == lines[..i] && shorter[..i + 1] == lines[..i + 1];
      FirstError(b, shorter, i);
    } else {
      assert lines[..i + 1] == lines;
    }
  }
}

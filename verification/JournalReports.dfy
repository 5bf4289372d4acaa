/** Financial statements over the journal, and when an exported range can no longer change. */
module JournalReports {
  import opened Journal
  import opened Wrappers
  import Numeric

  // ---- Sums over lines ----

  type Weight = (Entry, Line) -> int

  function LineTotal(e: Entry, lines: seq<Line>, w: Weight): int {
    if lines == [] then 0 else LineTotal(e, lines[..|lines| - 1], w) + w(e, lines[|lines| - 1])
  }

  function Total(entries: seq<Entry>, w: Weight): int {
    if entries == [] then 0
    else
      var last := entries[|entries| - 1];
      Total(entries[..|entries| - 1], w) + LineTotal(last, last.lines, w)
  }

  // ---- Statements ----

  predicate Is(accounts: map<nat, AccountType>, l: Line, types: set<AccountType>) {
    l.account in accounts && accounts[l.account] in types
  }

  function Revenue(accounts: map<nat, AccountType>, from: int, to: int): Weight {
    (e: Entry, l: Line) =>
      if from <= e.date <= to && Is(accounts, l, {Income, ContraIncome}) then l.credit - l.debit else 0
  }

  function Expenses(accounts: map<nat, AccountType>, from: int, to: int): Weight {
    (e: Entry, l: Line) => if from <= e.date <= to && Is(accounts, l, {Expense}) then l.debit - l.credit else 0
  }

  datatype IncomeStatement = IncomeStatement(revenue: int, expenses: int, netProfit: int)

  function IncomeStatementOf(b: Book, from: int, to: int): IncomeStatement {
    var revenue, expenses := Total(b.entries, Revenue(b.accounts, from, to)),
      Total(b.entries, Expenses(b.accounts, from, to));
    IncomeStatement(revenue, expenses, revenue - expenses)
  }

  function AssetsAt(accounts: map<nat, AccountType>, asOf: int): Weight {
    (e: Entry, l: Line) => if e.date <= asOf && Is(accounts, l, {Asset, ContraAsset}) then l.debit - l.credit else 0
  }

  function LiabilitiesAt(accounts: map<nat, AccountType>, asOf: int): Weight {
    (e: Entry, l: Line) => if e.date <= asOf && Is(accounts, l, {Liability}) then l.credit - l.debit else 0
  }

  function RetainedAt(accounts: map<nat, AccountType>, asOf: int): Weight {
    (e: Entry, l: Line) => if e.date <= asOf && Is(accounts, l, {Equity}) then l.credit - l.debit else 0
  }

  function NetIncomeAt(accounts: map<nat, AccountType>, asOf: int): Weight {
    (e: Entry, l: Line) => if e.date <= asOf && Is(accounts, l, {Income, ContraIncome, Expense})
      then l.credit - l.debit else 0
  }

  datatype BalanceSheet = BalanceSheet(assets: int, liabilities: int, retained: int, netIncome: int)

  function BalanceSheetOf(b: Book, asOf: int): BalanceSheet {
    BalanceSheet(Total(b.entries, AssetsAt(b.accounts, asOf)), Total(b.entries, LiabilitiesAt(b.accounts, asOf)),
                 Total(b.entries, RetainedAt(b.accounts, asOf)), Total(b.entries, NetIncomeAt(b.accounts, asOf)))
  }

  // ---- The sheet balances ----

  lemma {:induction false} SheetLines(accounts: map<nat, AccountType>, e: Entry, lines: seq<Line>, asOf: int)
    requires forall i :: 0 <= i < |lines| ==> lines[i].account in accounts
    ensures LineTotal(e, lines, AssetsAt(accounts, asOf)) - LineTotal(e, lines, LiabilitiesAt(accounts, asOf))
          - LineTotal(e, lines, RetainedAt(accounts, asOf)) - LineTotal(e, lines, NetIncomeAt(accounts, asOf))
         == if e.date <= asOf then Debits(lines) - Credits(lines) else 0
  {
    if lines != [] {
      SheetLines(accounts, e, lines[..|lines| - 1], asOf);
      var l := lines[|lines| - 1];
      assert l.account in accounts;
      match accounts[l.account] {
        case Asset => case ContraAsset => case Liability => case Equity => case Income => case ContraIncome =>
        case Expense =>
      }
    }
  }

  lemma {:induction false} SheetBalances(accounts: map<nat, AccountType>, entries: seq<Entry>, asOf: int)
    requires forall i :: 0 <= i < |entries| ==> EntryOk(Book(accounts, [], []), entries[i])
    ensures Total(entries, AssetsAt(accounts, asOf))
         == Total(entries, LiabilitiesAt(accounts, asOf)) + Total(entries, RetainedAt(accounts, asOf))
           + Total(entries, NetIncomeAt(accounts, asOf))
  {
    if entries != [] {
      SheetBalances(accounts, entries[..|entries| - 1], asOf);
      var last := entries[|entries| - 1];
      assert EntryOk(Book(accounts, [], []), last);
      SheetLines(accounts, last, last.lines, asOf);
    }
  }

  lemma {:induction false} NetIncomeLines(accounts: map<nat, AccountType>, e: Entry, lines: seq<Line>, from: int,
                                          asOf: int)
    requires from <= e.date
    ensures LineTotal(e, lines, NetIncomeAt(accounts, asOf))
         == LineTotal(e, lines, Revenue(accounts, from, asOf)) - LineTotal(e, lines, Expenses(accounts, from, asOf))
  {
    if lines != [] {
      NetIncomeLines(accounts, e, lines[..|lines| - 1], from, asOf);
      var l := lines[|lines| - 1];
      if l.account in accounts {
        match accounts[l.account] {
          case Asset => case ContraAsset => case Liability => case Equity => case Income => case ContraIncome =>
          case Expense =>
        }
      }
    }
  }

  ghost predicate Since(entries: seq<Entry>, from: int) {
    forall i :: 0 <= i < |entries| ==> from <= entries[i].date
  }

  lemma {:induction false} NetIncomeIs(accounts: map<nat, AccountType>, entries: seq<Entry>, from: int, asOf: int)
    requires Since(entries, from)
    ensures Total(entries, NetIncomeAt(accounts, asOf))
        == Total(entries, Revenue(accounts, from, asOf)) - Total(entries, Expenses(accounts, from, asOf))
  {
    if entries != [] {
      NetIncomeIs(accounts, entries[..|entries| - 1], from, asOf);
      var last := entries[|entries| - 1];
      NetIncomeLines(accounts, last, last.lines, from, asOf);
    }
  }

  // ---- Where an entry shows ----

  lemma TotalSnoc(entries: seq<Entry>, e: Entry, w: Weight)
    ensures Total(entries + [e], w) == Total(entries, w) + LineTotal(e, e.lines, w)
  {
    assert (entries + [e])[..|entries|] == entries;
  }

  lemma TwoLines(e: Entry, l: Line, m: Line, w: Weight)
    ensures LineTotal(e, [l, m], w) == w(e, l) + w(e, m)
  {
    var two, one := [l, m], [l];
    assert two[..1] == one && one[..0] == [];
    assert LineTotal(e, one, w) == LineTotal(e, one[..0], w) + w(e, l);
    assert LineTotal(e, two, w) == LineTotal(e, two[..1], w) + w(e, two[1]);
  }

  /** n cents if the account is of one of the types. */
  function IfOf(b: Book, account: nat, types: set<AccountType>, n: int): int {
    if account in b.accounts && b.accounts[account] in types then n else 0
  }

  function Moved(debit: nat, credit: nat, n: nat): seq<RawLine> {
    [RawLine(debit, n as real, 0.0), RawLine(credit, 0.0, n as real)]
  }

  lemma MovedIsStored(debit: nat, credit: nat, n: nat)
    ensures Stored(Moved(debit, credit, n)) == [Line(debit, n, 0), Line(credit, 0, n)]
  {
    Numeric.RoundOfStored(n);
    Numeric.RoundOfStored(0);
  }

  lemma MovedIsAccepted(b: Book, date: int, debit: nat, credit: nat, n: nat, allowClosed: bool)
    requires n > 0 && debit in b.accounts && credit in b.accounts && PostingError(b, date, allowClosed).None?
    ensures WithEntry(b, date, Stored(Moved(debit, credit, n)), allowClosed)
         == Ok(b.(entries := b.entries + [Entry(date, [Line(debit, n, 0), Line(credit, 0, n)], false, None)]))
  {
    MovedIsStored(debit, credit, n);
    var lines, one := [Line(debit, n, 0), Line(credit, 0, n)], [Line(debit, n, 0)];
    assert lines[..1] == one && one[..0] == [];
    assert LineError(b, one[..0]).None? && LineError(b, one).None? && LineError(b, lines).None?;
    assert Debits(one) == Debits(one[..0]) + n && Debits(lines) == Debits(lines[..1]) + 0;
    assert Credits(one) == Credits(one[..0]) + 0 && Credits(lines) == Credits(lines[..1]) + n;
  }

  /** The balance sheet after n cents moved: assets rise by debits, the other headings by credits. */
  ghost predicate SheetMoved(b: Book, was: BalanceSheet, now: BalanceSheet, debit: nat, credit: nat, n: int) {
    && now.assets == was.assets + IfOf(b, debit, {Asset, ContraAsset}, n) - IfOf(b, credit, {Asset, ContraAsset}, n)
    && now.liabilities == was.liabilities - IfOf(b, debit, {Liability}, n) + IfOf(b, credit, {Liability}, n)
    && now.retained == was.retained - IfOf(b, debit, {Equity}, n) + IfOf(b, credit, {Equity}, n)
    && now.netIncome == was.netIncome - IfOf(b, debit, {Income, ContraIncome, Expense}, n)
         + IfOf(b, credit, {Income, ContraIncome, Expense}, n)
  }

  ghost predicate StatementMoved(b: Book, was: IncomeStatement, now: IncomeStatement, debit: nat, credit: nat, n: int) {
    && now.revenue == was.revenue
         - IfOf(b, debit, {Income, ContraIncome}, n) + IfOf(b, credit, {Income, ContraIncome}, n)
    && now.expenses == was.expenses + IfOf(b, debit, {Expense}, n) - IfOf(b, credit, {Expense}, n)
  }

  lemma WeightShows(entries: seq<Entry>, e: Entry, l: Line, k: Line, w: Weight)
    requires e.lines == [l, k]
    ensures Total(entries + [e], w) == Total(entries, w) + w(e, l) + w(e, k)
  {
    TotalSnoc(entries, e, w);
    TwoLines(e, l, k, w);
  }

  /** A heading that debits raise, and one that credits raise. */
  lemma DebitHeading(b: Book, e: Entry, debit: nat, credit: nat, n: int, m: int, types: set<AccountType>, w: Weight)
    requires e.lines == [Line(debit, n, 0), Line(credit, 0, n)]
    requires w(e, Line(debit, n, 0)) == IfOf(b, debit, types, m)
    requires w(e, Line(credit, 0, n)) == -IfOf(b, credit, types, m)
    ensures Total(b.entries + [e], w) == Total(b.entries, w) + IfOf(b, debit, types, m) - IfOf(b, credit, types, m)
  {
    WeightShows(b.entries, e, Line(debit, n, 0), Line(credit, 0, n), w);
  }

  lemma CreditHeading(b: Book, e: Entry, debit: nat, credit: nat, n: int, m: int, types: set<AccountType>, w: Weight)
    requires e.lines == [Line(debit, n, 0), Line(credit, 0, n)]
    requires w(e, Line(debit, n, 0)) == -IfOf(b, debit, types, m)
    requires w(e, Line(credit, 0, n)) == IfOf(b, credit, types, m)
    ensures Total(b.entries + [e], w) == Total(b.entries, w) - IfOf(b, debit, types, m) + IfOf(b, credit, types, m)
  {
    WeightShows(b.entries, e, Line(debit, n, 0), Line(credit, 0, n), w);
  }

  lemma SheetWeights(b: Book, e: Entry, l: Line, asOf: int)
    ensures var m := if e.date <= asOf then l.debit - l.credit else 0;
      && AssetsAt(b.accounts, asOf)(e, l) == IfOf(b, l.account, {Asset, ContraAsset}, m)
      && LiabilitiesAt(b.accounts, asOf)(e, l) == -IfOf(b, l.account, {Liability}, m)
      && RetainedAt(b.accounts, asOf)(e, l) == -IfOf(b, l.account, {Equity}, m)
      && NetIncomeAt(b.accounts, asOf)(e, l) == -IfOf(b, l.account, {Income, ContraIncome, Expense}, m)
  {
  }

  lemma StatementWeights(b: Book, e: Entry, l: Line, from: int, asOf: int)
    ensures var m := if from <= e.date <= asOf then l.debit - l.credit else 0;
      && Revenue(b.accounts, from, asOf)(e, l) == -IfOf(b, l.account, {Income, ContraIncome}, m)
      && Expenses(b.accounts, from, asOf)(e, l) == IfOf(b, l.account, {Expense}, m)
  {
  }

  lemma IfOfNegated(b: Book, account: nat, types: set<AccountType>, n: int)
    ensures IfOf(b, account, types, -n) == -IfOf(b, account, types, n)
  {
  }

  lemma SheetShows(b: Book, e: Entry, debit: nat, credit: nat, n: int, asOf: int)
    requires e.lines == [Line(debit, n, 0), Line(credit, 0, n)]
    ensures SheetMoved(b, BalanceSheetOf(b, asOf), BalanceSheetOf(b.(entries := b.entries + [e]), asOf), debit, credit,
                       if e.date <= asOf then n else 0)
  {
    var m := if e.date <= asOf then n else 0;
    SheetWeights(b, e, Line(debit, n, 0), asOf);
    SheetWeights(b, e, Line(credit, 0, n), asOf);
    IfOfNegated(b, credit, {Asset, ContraAsset}, m);
    IfOfNegated(b, credit, {Liability}, m);
    IfOfNegated(b, credit, {Equity}, m);
    IfOfNegated(b, credit, {Income, ContraIncome, Expense}, m);
    DebitHeading(b, e, debit, credit, n, m, {Asset, ContraAsset}, AssetsAt(b.accounts, asOf));
    CreditHeading(b, e, debit, credit, n, m, {Liability}, LiabilitiesAt(b.accounts, asOf));
    CreditHeading(b, e, debit, credit, n, m, {Equity}, RetainedAt(b.accounts, asOf));
    CreditHeading(b, e, debit, credit, n, m, {Income, ContraIncome, Expense}, NetIncomeAt(b.accounts, asOf));
  }

  lemma StatementShows(b: Book, e: Entry, debit: nat, credit: nat, n: int, from: int, asOf: int)
    requires e.lines == [Line(debit, n, 0), Line(credit, 0, n)]
    ensures var b' := b.(entries := b.entries + [e]);
      StatementMoved(b, IncomeStatementOf(b, from, asOf), IncomeStatementOf(b', from, asOf), debit, credit,
                     if from <= e.date <= asOf then n else 0)
  {
    var m := if from <= e.date <= asOf then n else 0;
    StatementWeights(b, e, Line(debit, n, 0), from, asOf);
    StatementWeights(b, e, Line(credit, 0, n), from, asOf);
    IfOfNegated(b, credit, {Income, ContraIncome}, m);
    IfOfNegated(b, credit, {Expense}, m);
    CreditHeading(b, e, debit, credit, n, m, {Income, ContraIncome}, Revenue(b.accounts, from, asOf));
    DebitHeading(b, e, debit, credit, n, m, {Expense}, Expenses(b.accounts, from, asOf));
  }

  /** Debiting one account with n cents against another moves exactly the headings of the two accounts, on every balance
      sheet from the entry's date on and every income statement over it. */
  lemma EntryShows(b: Book, date: int, debit: nat, credit: nat, n: nat, allowClosed: bool, from: int, asOf: int)
    requires n > 0 && debit in b.accounts && credit in b.accounts && PostingError(b, date, allowClosed).None?
    ensures var r := WithEntry(b, date, Stored(Moved(debit, credit, n)), allowClosed);
      && r.Ok?
      && SheetMoved(b, BalanceSheetOf(b, asOf), BalanceSheetOf(r.value, asOf), debit, credit,
                    if date <= asOf then n else 0)
      && StatementMoved(b, IncomeStatementOf(b, from, asOf), IncomeStatementOf(r.value, from, asOf), debit, credit,
                        if from <= date <= asOf then n else 0)
  {
    MovedIsAccepted(b, date, debit, credit, n, allowClosed);
    var e := Entry(date, [Line(debit, n, 0), Line(credit, 0, n)], false, None);
    SheetShows(b, e, debit, credit, n, asOf);
    StatementShows(b, e, debit, credit, n, from, asOf);
  }

  /** Buying on credit: n more in assets, n more owed, nothing else. */
  lemma AssetOnCredit(b: Book, date: int, asset: nat, liability: nat, n: nat, asOf: int)
    requires n > 0 && date <= asOf && PostingError(b, date, false).None?
    requires asset in b.accounts && b.accounts[asset].Asset?
    requires liability in b.accounts && b.accounts[liability].Liability?
    ensures var r := WithEntry(b, date, Stored(Moved(asset, liability, n)), false);
      && r.Ok?
      && var was := BalanceSheetOf(b, asOf);
         BalanceSheetOf(r.value, asOf) == was.(assets := was.assets + n, liabilities := was.liabilities + n)
  {
    EntryShows(b, date, asset, liability, n, false, date, asOf);
  }

  /** In every reachable journal, at every date: assets are liabilities plus retained earnings plus net income, and
      net income is the income statement from the first entry on. */
  lemma AccountingEquation(ops: seq<Op>, from: int, asOf: int)
    requires Since(Run(Blank, ops).entries, from)
    ensures var b := Run(Blank, ops);
      var sheet := BalanceSheetOf(b, asOf);
      && sheet.assets == sheet.liabilities + sheet.retained + sheet.netIncome
      && sheet.netIncome == IncomeStatementOf(b, from, asOf).netProfit
  {
    var b := Run(Blank, ops);
    RunKeeps(Blank, ops);
    forall i | 0 <= i < |b.entries| ensures EntryOk(Book(b.accounts, [], []), b.entries[i]) {
      assert EntryOk(b, b.entries[i]);
    }
    SheetBalances(b.accounts, b.entries, asOf);
    NetIncomeIs(b.accounts, b.entries, from, asOf);
  }

  // ---- Chains of reversals ----

  function AccountNet(account: nat): Weight {
    (e: Entry, l: Line) => if l.account == account then l.debit - l.credit else 0
  }

  function NetOf(e: Entry, account: nat): int {
    LineTotal(e, e.lines, AccountNet(account))
  }

  lemma {:induction false} SwappedNet(e: Entry, f: Entry, lines: seq<Line>, account: nat)
    ensures LineTotal(f, Swapped(lines), AccountNet(account)) == -LineTotal(e, lines, AccountNet(account))
  {
    if lines != [] {
      SwappedNet(e, f, lines[..|lines| - 1], account);
      assert Swapped(lines)[..|lines| - 1] == Swapped(lines[..|lines| - 1]);
    }
  }

  /** `chain[i + 1]` reverses `chain[i]`. */
  ghost predicate IsChain(entries: seq<Entry>, chain: seq<nat>) {
    && (forall i :: 0 <= i < |chain| ==> chain[i] < |entries|)
    && (forall i :: 0 < i < |chain| ==> entries[chain[i]].reverses == Some(chain[i - 1]))
  }

  function ChainNet(entries: seq<Entry>, chain: seq<nat>, account: nat): int
    requires forall i :: 0 <= i < |chain| ==> chain[i] < |entries|
  {
    if chain == [] then 0
      else ChainNet(entries, chain[..|chain| - 1], account) + NetOf(entries[chain[|chain| - 1]], account)
  }

  predicate Odd(n: nat) {
    n % 2 == 1
  }

  /** Each reversal has the date and the opposite net of the entry before it. */
  lemma ChainLink(entries: seq<Entry>, chain: seq<nat>, account: nat)
    requires ReversalsOk(entries) && IsChain(entries, chain) && |chain| > 1
    ensures var last, prev := entries[chain[|chain| - 1]], entries[chain[|chain| - 2]];
      last.date == prev.date && NetOf(last, account) == -NetOf(prev, account)
  {
    var n, m := chain[|chain| - 1], chain[|chain| - 2];
    assert ReversalOk(entries, n) && entries[n].reverses == Some(m);
    SwappedNet(entries[m], entries[n], entries[m].lines, account);
  }

  lemma {:induction false} ChainParity(entries: seq<Entry>, chain: seq<nat>, account: nat)
    requires ReversalsOk(entries) && IsChain(entries, chain) && chain != []
    ensures var first, last := entries[chain[0]], entries[chain[|chain| - 1]];
      && last.date == first.date
      && NetOf(last, account) == (if Odd(|chain|) then NetOf(first, account) else -NetOf(first, account))
      && ChainNet(entries, chain, account) == if Odd(|chain|) then NetOf(first, account) else 0
  {
    if |chain| > 1 {
      ChainParity(entries, chain[..|chain| - 1], account);
      ChainLink(entries, chain, account);
    } else {
      assert chain[..0] == [];
    }
  }

  /** An entry reversed k times over, in any run, counts as itself when k is even and as nothing when k is odd,
      in every account, all on the one date. */
  lemma ReversalParity(ops: seq<Op>, chain: seq<nat>, account: nat)
    requires IsChain(Run(Blank, ops).entries, chain) && chain != []
    ensures var entries := Run(Blank, ops).entries;
      && entries[chain[|chain| - 1]].date == entries[chain[0]].date
      && ChainNet(entries, chain, account) == if (|chain| - 1) % 2 == 0 then NetOf(entries[chain[0]], account) else 0
  {
    RunKeeps(Blank, ops);
    ChainParity(Run(Blank, ops).entries, chain, account);
  }

  // ---- Exports ----

  datatype ExportRow = ExportRow(number: nat, entry: Entry)

  predicate Within(e: Entry, from: int, to: int) {
    from <= e.date <= to
  }

  /** Every entry dated in the range, with its number, in order. */
  function Export(entries: seq<Entry>, from: int, to: int): seq<ExportRow> {
    if entries == [] then []
    else
      var rest, last := Export(entries[..|entries| - 1], from, to), entries[|entries| - 1];
      if Within(last, from, to) then rest + [ExportRow(|entries| - 1, last)] else rest
  }

  ghost predicate RangeProvisional(b: Book, from: int, to: int) {
    exists i :: 0 <= i < |b.periods| && !b.periods[i].status.Locked? && Overlaps(b.periods[i], from, to)
  }

  predicate DayLocked(b: Book, day: int) {
    var i := FindPeriod(b.periods, day);
    i < |b.periods| && b.periods[i].status.Locked?
  }

  ghost predicate AllLocked(b: Book, from: int, to: int) {
    forall day :: from <= day <= to ==> DayLocked(b, day)
  }

  /** No run of posts, reversals, new periods, transitions and new accounts changes the export or the statement. */
  ghost predicate Final(b: Book, from: int, to: int) {
    forall ops :: Export(Run(b, ops).entries, from, to) == Export(b.entries, from, to)
               && IncomeStatementOf(Run(b, ops), from, to) == IncomeStatementOf(b, from, to)
  }

  lemma ExportSnoc(entries: seq<Entry>, e: Entry, from: int, to: int)
    ensures Export(entries + [e], from, to)
         == Export(entries, from, to) + if Within(e, from, to) then [ExportRow(|entries|, e)] else []
  {
    assert (entries + [e])[..|entries|] == entries;
  }

  lemma {:induction false} ExportOutside(entries: seq<Entry>, n: nat, e: Entry, from: int, to: int)
    requires n < |entries| && e.date == entries[n].date && !Within(e, from, to)
    ensures Export(entries[n := e], from, to) == Export(entries, from, to)
  {
    if n < |entries| - 1 {
      ExportOutside(entries[..|entries| - 1], n, e, from, to);
      assert entries[n := e][..|entries| - 1] == entries[..|entries| - 1][n := e];
    } else {
      assert entries[n := e][..|entries| - 1] == entries[..|entries| - 1];
    }
  }

  lemma FindPeriodSnoc(periods: seq<Period>, p: Period, day: int)
    requires FindPeriod(periods, day) < |periods|
    ensures FindPeriod(periods + [p], day) == FindPeriod(periods, day)
  {
    var i, j := FindPeriod(periods, day), FindPeriod(periods + [p], day);
    assert (periods + [p])[i] == periods[i];
    assert forall k :: 0 <= k < |periods| ==> (periods + [p])[k] == periods[k];
  }

  lemma FindPeriodMoved(periods: seq<Period>, id: nat, status: PeriodStatus, day: int)
    requires id < |periods|
    ensures FindPeriod(periods[id := periods[id].(status := status)], day) == FindPeriod(periods, day)
  {
    var moved := periods[id := periods[id].(status := status)];
    var i, j := FindPeriod(periods, day), FindPeriod(moved, day);
    assert forall k :: 0 <= k < |periods| ==> (Covers(moved[k], day) <==> Covers(periods[k], day));
  }

  /** A locked day stays locked: nothing leads out of the locked status. */
  lemma LockedStays(b: Book, op: Op, day: int)
    requires DayLocked(b, day)
    ensures DayLocked(Apply(b, op), day)
  {
    match op
    case NewPeriod(start, end) => FindPeriodSnoc(b.periods, Period(start, end, Open), day);
    case Move(id, from, to) => if id < |b.periods| { FindPeriodMoved(b.periods, id, to, day); }
    case _ =>
  }

  lemma ExportStays(b: Book, op: Op, from: int, to: int)
    requires AllLocked(b, from, to)
    ensures Export(Apply(b, op).entries, from, to) == Export(b.entries, from, to)
  {
    match op
    case Post(date, lines, allowClosed) =>
      if WithEntry(b, date, lines, allowClosed).Ok? {
        ExportSnoc(b.entries, Entry(date, lines, false, None), from, to);
        assert from <= date <= to ==> DayLocked(b, date);
      }
    case Reverse(n) =>
      if WithReversal(b, n).Ok? {
        var e := b.entries[n];
        assert from <= e.date <= to ==> DayLocked(b, e.date);
        var marked := b.entries[n := e.(reversed := true)];
        ExportOutside(b.entries, n, e.(reversed := true), from, to);
        ExportSnoc(marked, Entry(e.date, Swapped(e.lines), false, Some(n)), from, to);
      }
    case _ =>
  }

  function Entries(rows: seq<ExportRow>): seq<Entry> {
    if rows == [] then [] else Entries(rows[..|rows| - 1]) + [rows[|rows| - 1].entry]
  }

  /** A statement over a range is a sum over its export. */
  lemma {:induction false} TotalOfExport(entries: seq<Entry>, w: Weight, from: int, to: int)
    requires forall e: Entry, l: Line :: !Within(e, from, to) ==> w(e, l) == 0
    ensures Total(entries, w) == Total(Entries(Export(entries, from, to)), w)
  {
    if entries != [] {
      var before, last := entries[..|entries| - 1], entries[|entries| - 1];
      TotalOfExport(before, w, from, to);
      if Within(last, from, to) {
        var rows := Export(entries, from, to);
        assert rows[..|rows| - 1] == Export(before, from, to);
        assert Entries(rows)[..|Entries(rows)| - 1] == Entries(Export(before, from, to));
      } else {
        LinesZero(last, last.lines, w);
      }
    }
  }

  lemma {:induction false} LinesZero(e: Entry, lines: seq<Line>, w: Weight)
    requires forall l: Line :: w(e, l) == 0
    ensures LineTotal(e, lines, w) == 0
  {
    if lines != [] {
      LinesZero(e, lines[..|lines| - 1], w);
    }
  }

  lemma {:induction false} LinesSame(e: Entry, lines: seq<Line>, w: Weight, v: Weight)
    requires forall l :: l in lines ==> w(e, l) == v(e, l)
    ensures LineTotal(e, lines, w) == LineTotal(e, lines, v)
  {
    if lines != [] {
      LinesSame(e, lines[..|lines| - 1], w, v);
    }
  }

  lemma {:induction false} TotalSame(entries: seq<Entry>, w: Weight, v: Weight)
    requires forall e, l :: e in entries && l in e.lines ==> w(e, l) == v(e, l)
    ensures Total(entries, w) == Total(entries, v)
  {
    if entries != [] {
      var last := entries[|entries| - 1];
      TotalSame(entries[..|entries| - 1], w, v);
      assert last in entries;
      LinesSame(last, last.lines, w, v);
    }
  }

  /** The same export over more accounts gives the same statement. */
  lemma StatementStays(b: Book, b': Book, from: int, to: int)
    requires EntriesOk(b)
    requires Keeps(b.accounts, b'.accounts)
    requires Export(b'.entries, from, to) == Export(b.entries, from, to)
    ensures IncomeStatementOf(b', from, to) == IncomeStatementOf(b, from, to)
  {
    forall e, l | e in b.entries && l in e.lines ensures l.account in b.accounts {
      var i :| 0 <= i < |b.entries| && b.entries[i] == e;
      assert EntryOk(b, b.entries[i]);
    }
    TotalOfExport(b.entries, Revenue(b'.accounts, from, to), from, to);
    TotalOfExport(b'.entries, Revenue(b'.accounts, from, to), from, to);
    TotalSame(b.entries, Revenue(b'.accounts, from, to), Revenue(b.accounts, from, to));
    TotalOfExport(b.entries, Expenses(b'.accounts, from, to), from, to);
    TotalOfExport(b'.entries, Expenses(b'.accounts, from, to), from, to);
    TotalSame(b.entries, Expenses(b'.accounts, from, to), Expenses(b.accounts, from, to));
  }

  ghost predicate Keeps(a: map<nat, AccountType>, b: map<nat, AccountType>) {
    forall id :: id in a ==> id in b && b[id] == a[id]
  }

  lemma LockedStep(b: Book, op: Op, from: int, to: int)
    requires AllLocked(b, from, to)
    ensures AllLocked(Apply(b, op), from, to) && Keeps(b.accounts, Apply(b, op).accounts)
  {
    forall day | from <= day <= to ensures DayLocked(Apply(b, op), day) {
      LockedStays(b, op, day);
    }
  }

  lemma {:induction false} LockedRun(b: Book, ops: seq<Op>, from: int, to: int)
    requires AllLocked(b, from, to)
    ensures Export(Run(b, ops).entries, from, to) == Export(b.entries, from, to)
        && Keeps(b.accounts, Run(b, ops).accounts)
    decreases |ops|
  {
    if ops != [] {
      ExportStays(b, ops[0], from, to);
      LockedStep(b, ops[0], from, to);
      LockedRun(Apply(b, ops[0]), ops[1..], from, to);
    }
  }

  function Pair(account: nat): seq<Line> {
    [Line(account, 1, 0)] + [Line(account, 0, 1)]
  }

  lemma SumsSnoc(lines: seq<Line>, l: Line)
    ensures Debits(lines + [l]) == Debits(lines) + l.debit && Credits(lines + [l]) == Credits(lines) + l.credit
  {
    assert (lines + [l])[..|lines|] == lines;
  }

  lemma LineErrorSnoc(b: Book, lines: seq<Line>, l: Line)
    requires LineError(b, lines).None? && l.account in b.accounts && AmountsOk(l)
    ensures LineError(b, lines + [l]).None?
  {
    assert (lines + [l])[..|lines|] == lines;
  }

  lemma PairPosts(b: Book, account: nat)
    requires account in b.accounts
    ensures Balanced(Pair(account)) && LineError(b, Pair(account)).None? && Pair(account) != []
  {
    var first, second := Line(account, 1, 0), Line(account, 0, 1);
    assert [] + [first] == [first];
    SumsSnoc([], first);
    SumsSnoc([first], second);
    LineErrorSnoc(b, [], first);
    LineErrorSnoc(b, [first], second);
  }

  lemma RunOne(b: Book, op: Op)
    ensures Run(b, [op]) == Apply(b, op)
  {
    assert [op][1..] == [];
    assert Run(b, [op]) == Run(Apply(b, op), []);
  }

  lemma RunTwo(b: Book, op: Op, next: Op)
    ensures Run(b, [op, next]) == Apply(Apply(b, op), next)
  {
    assert [op, next][1..] == [next];
    RunOne(Apply(b, op), next);
  }

  /** On a day that is not locked, a next posting goes through. */
  lemma PostingGoesThrough(b: Book, day: int, account: nat) returns (ops: seq<Op>, e: Entry)
    requires account in b.accounts && !DayLocked(b, day)
    ensures e.date == day && Run(b, ops).entries == b.entries + [e]
  {
    var post := Post(day, Pair(account), true);
    e := Entry(day, Pair(account), false, None);
    if FindPeriod(b.periods, day) < |b.periods| {
      ops := [post];
      PairPosts(b, account);
      RunOne(b, post);
    } else {
      ops := [NewPeriod(day, day), post];
      var mid := b.(periods := b.periods + [Period(day, day, Open)]);
      PeriodForDay(b, day);
      PairPosts(mid, account);
      RunTwo(b, NewPeriod(day, day), post);
    }
  }

  lemma PeriodForDay(b: Book, day: int)
    requires FindPeriod(b.periods, day) == |b.periods|
    ensures Apply(b, NewPeriod(day, day)) == b.(periods := b.periods + [Period(day, day, Open)])
    ensures FindPeriod(b.periods + [Period(day, day, Open)], day) == |b.periods|
  {
    forall i | 0 <= i < |b.periods| ensures !Overlaps(b.periods[i], day, day) {
      assert !Covers(b.periods[i], day);
    }
    var more := b.periods + [Period(day, day, Open)];
    assert forall i :: 0 <= i < |b.periods| ==> more[i] == b.periods[i] && !Covers(more[i], day);
    assert Covers(more[|b.periods|], day);
  }

  /** A range is final exactly when every day of it lies in a locked period. */
  lemma FinalIffLocked(past: seq<Op>, from: int, to: int)
    requires Run(Blank, past).accounts != map[]
    ensures var b := Run(Blank, past); Final(b, from, to) <==> AllLocked(b, from, to)
  {
    var b := Run(Blank, past);
    RunKeeps(Blank, past);
    if AllLocked(b, from, to) {
      forall ops ensures Export(Run(b, ops).entries, from, to) == Export(b.entries, from, to)
                      && IncomeStatementOf(Run(b, ops), from, to) == IncomeStatementOf(b, from, to)
      {
        LockedRun(b, ops, from, to);
        StatementStays(b, Run(b, ops), from, to);
      }
    } else {
      var day :| from <= day <= to && !DayLocked(b, day);
      var account :| account in b.accounts;
      var ops, e := PostingGoesThrough(b, day, account);
      ExportSnoc(b.entries, e, from, to);
      assert Export(Run(b, ops).entries, from, to) != Export(b.entries, from, to);
    }
  }

  /** "No overlapping period is unlocked" is not enough: a range no period covers passes that test, and is not final. */
  lemma UncoveredRangeNotFinal(from: int, to: int)
    requires from <= to
    ensures var b := Run(Blank, [AddAccount(0, Asset)]);
      !RangeProvisional(b, from, to) && !Final(b, from, to)
  {
    var past := [AddAccount(0, Asset)];
    assert past[1..] == [];
    assert Run(Blank, past) == Run(Apply(Blank, past[0]), []);
    var b := Run(Blank, past);
    assert 0 in b.accounts && b.periods == [];
    FinalIffLocked(past, from, to);
    assert !DayLocked(b, from);
  }

  ghost predicate NoGap(periods: seq<Period>, from: int, to: int) {
    forall day :: from <= day <= to ==> FindPeriod(periods, day) < |periods|
  }

  /** The flag is right on ranges that periods cover without a gap. */
  lemma ProvisionalOnCovered(past: seq<Op>, from: int, to: int)
    requires from <= to && NoGap(Run(Blank, past).periods, from, to)
    ensures var b := Run(Blank, past); !RangeProvisional(b, from, to) <==> AllLocked(b, from, to)
  {
    var b := Run(Blank, past);
    RunKeeps(Blank, past);
    if AllLocked(b, from, to) {
      forall i | 0 <= i < |b.periods| && Overlaps(b.periods[i], from, to) ensures b.periods[i].status.Locked? {
        var day := if b.periods[i].start < from then from else b.periods[i].start;
        assert DayLocked(b, day) && Covers(b.periods[i], day);
        assert i == FindPeriod(b.periods, day);
      }
    }
    if !RangeProvisional(b, from, to) {
      forall day | from <= day <= to ensures DayLocked(b, day) {
        var i := FindPeriod(b.periods, day);
        assert Overlaps(b.periods[i], from, to);
      }
    }
  }
}

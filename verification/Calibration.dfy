/** Strapping charts: reading them, and turning a dip into litres.

A record's two fields are given as the numbers they parse to, if they do.
 */
module Calibration {
  import opened Wrappers

  datatype Entry = Entry(dip: real, volume: real)

  datatype Record = Record(dip: Option<real>, volume: Option<real>)

  datatype Header = NoHeader | OtherHeader | ExpectedHeader

  datatype ChartError = EmptyFile | BadHeader | BadLine(line: nat) | TooFewRows

  datatype Parsed = Chart(entries: seq<Entry>) | Rejected(error: ChartError)

  // ---- Reading a chart ----

  predicate Whole(x: real) {
    x == x.Floor as real
  }

  predicate RecordOk(r: Record) {
    r.dip.Some? && r.volume.Some? && Whole(r.dip.value) && r.dip.value >= 0.0 && r.volume.value >= 0.0
  }

  /** Later rows are deeper and hold no less. */
  predicate Follows(prev: Entry, next: Entry) {
    next.dip > prev.dip && next.volume >= prev.volume
  }

  ghost predicate Increasing(chart: seq<Entry>) {
    forall i, j :: 0 <= i < j < |chart| ==> Follows(chart[i], chart[j])
  }

  /** Charts the parser accepts. */
  ghost predicate ValidChart(chart: seq<Entry>) {
    && |chart| >= 2 && Increasing(chart)
    && (forall i :: 0 <= i < |chart| ==> Whole(chart[i].dip) && chart[i].dip >= 0.0 && chart[i].volume >= 0.0)
  }

  function EntryOf(r: Record): Entry
    requires RecordOk(r)
  {
    Entry(r.dip.value, r.volume.value)
  }

  /** A line is acceptable by itself and after the one before it. */
  predicate LineOk(records: seq<Record>, k: nat)
    requires k < |records|
  {
    RecordOk(records[k])
      && (k > 0 && RecordOk(records[k - 1]) ==> Follows(EntryOf(records[k - 1]), EntryOf(records[k])))
  }

  predicate LinesOk(records: seq<Record>, n: nat)
    requires n <= |records|
  {
    forall k :: 0 <= k < n ==> LineOk(records, k)
  }

  /** The first `n` lines, read. */
  predicate ReadFrom(entries: seq<Entry>, records: seq<Record>, n: nat)
    requires n <= |records|
  {
    |entries| == n && forall k :: 0 <= k < n ==> RecordOk(records[k]) && entries[k] == EntryOf(records[k])
  }

  lemma {:induction false} LinesIncrease(entries: seq<Entry>, records: seq<Record>, i: nat, j: nat)
    requires LinesOk(records, |records|) && ReadFrom(entries, records, |records|) && i < j < |records|
    ensures Follows(entries[i], entries[j])
  {
    assert LineOk(records, j) && RecordOk(records[j - 1]);
    if i < j - 1 {
      LinesIncrease(entries, records, i, j - 1);
    }
  }

  /** Every line holds two numbers, neither negative, the dip whole; the depths rise while the volumes never fall. */
  ghost predicate Readable(records: seq<Record>) {
    && (forall k :: 0 <= k < |records| ==>
          && records[k].dip.Some? && records[k].volume.Some?
          && records[k].dip.value.Floor as real == records[k].dip.value
          && 0.0 <= records[k].dip.value && 0.0 <= records[k].volume.value)
    && (forall i, j :: 0 <= i < j < |records| ==>
          records[i].dip.value < records[j].dip.value && records[i].volume.value <= records[j].volume.value)
  }

  /** Entry k holds the two numbers of line k. */
  ghost predicate Reads(entries: seq<Entry>, records: seq<Record>) {
    |entries| == |records| && forall k :: 0 <= k < |records| ==>
      records[k].dip == Some(entries[k].dip) && records[k].volume == Some(entries[k].volume)
  }

  lemma LinesReadable(entries: seq<Entry>, records: seq<Record>)
    requires LinesOk(records, |records|) && ReadFrom(entries, records, |records|)
    ensures Readable(records) && Reads(entries, records)
  {
    assert forall k :: 0 <= k < |records| ==> LineOk(records, k);
    forall i, j | 0 <= i < j < |records|
      ensures records[i].dip.value < records[j].dip.value && records[i].volume.value <= records[j].volume.value
    {
      LinesIncrease(entries, records, i, j);
    }
  }

  lemma NotReadable(records: seq<Record>, k: nat)
    requires k < |records| && !LineOk(records, k)
    ensures !Readable(records)
  {
  }

  lemma FirstUnreadable(entries: seq<Entry>, records: seq<Record>, k: nat)
    requires k < |records| && LinesOk(records, k) && ReadFrom(entries, records, k) && !LineOk(records, k)
    ensures Readable(records[..k]) && !Readable(records[..k + 1]) && !Readable(records)
  {
    var before, upTo := records[..k], records[..k + 1];
    forall j | 0 <= j < k ensures LineOk(before, j) {
      assert LineOk(records, j);
    }
    LinesReadable(entries, before);
    NotReadable(upTo, k);
    NotReadable(records, k);
  }

  /** Reads rows until the first that breaks a rule.  Data starts on line 2. */
  method ParseCSV(header: Header, records: seq<Record>) returns (r: Parsed)
    ensures r.Chart? <==> header.ExpectedHeader? && |records| >= 2 && Readable(records)
    ensures r.Chart? ==> ValidChart(r.entries) && Reads(r.entries, records)
    ensures r.Rejected? && r.error.BadLine? ==>
      && 2 <= r.error.line < |records| + 2
      && Readable(records[..r.error.line - 2]) && !Readable(records[..r.error.line - 1])
  {
    if header.NoHeader? {
      return Rejected(EmptyFile);
    }
    if header.OtherHeader? {
      return Rejected(BadHeader);
    }
    var entries: seq<Entry> := [];
    var line := 1;
    for k := 0 to |records|
      invariant line == k + 1
      invariant LinesOk(records, k) && ReadFrom(entries, records, k)
    {
      line := line + 1;
      if !RecordOk(records[k]) {
        FirstUnreadable(entries, records, k);
        return Rejected(BadLine(line));
      }
      var next := EntryOf(records[k]);
      if |entries| > 0 {
        var prev := entries[|entries| - 1];
        if next.dip <= prev.dip || next.volume < prev.volume {
          FirstUnreadable(entries, records, k);
          return Rejected(BadLine(line));
        }
      }
      entries := entries + [next];
    }
    if |entries| < 2 {
      return Rejected(TooFewRows);
    }
    forall i, j | 0 <= i < j < |entries| ensures Follows(entries[i], entries[j]) {
      LinesIncrease(entries, records, i, j);
    }
    LinesReadable(entries, records);
    r := Chart(entries);
  }

  // ---- Looking up a dip ----

  ghost predicate Sorted(s: seq<Entry>) {
    forall i, j :: 0 <= i < j < |s| ==> s[i].dip <= s[j].dip
  }

  /** First position at or past the dip. */
  function FirstAtLeast(s: seq<Entry>, dip: real): (i: nat)
    ensures i <= |s|
    ensures i < |s| ==> s[i].dip >= dip
    ensures forall j :: 0 <= j < i ==> s[j].dip < dip
  {
    if s == [] || s[0].dip >= dip then 0 else 1 + FirstAtLeast(s[1..], dip)
  }

  lemma FirstIs(s: seq<Entry>, dip: real, i: nat)
    requires i <= |s| && (i < |s| ==> s[i].dip >= dip) && forall j :: 0 <= j < i ==> s[j].dip < dip
    ensures FirstAtLeast(s, dip) == i
  {
  }

  function OnSegment(lo: Entry, hi: Entry, dip: real): real {
    if hi.dip == lo.dip then lo.volume
    else lo.volume + (dip - lo.dip) / (hi.dip - lo.dip) * (hi.volume - lo.volume)
  }

  /** The charted volume at a dip within the chart. */
  function VolumeAt(s: seq<Entry>, dip: real): real
    requires s != [] && s[0].dip <= dip <= s[|s| - 1].dip
  {
    var i := FirstAtLeast(s, dip);
    if s[i].dip == dip then s[i].volume else OnSegment(s[i - 1], s[i], dip)
  }

  datatype Lookup = Litres(volume: real) | EmptyChart | OutOfRange

  function LookUp(s: seq<Entry>, dip: real): Lookup {
    if s == [] then EmptyChart
    else if dip < s[0].dip || dip > s[|s| - 1].dip then OutOfRange
    else Litres(VolumeAt(s, dip))
  }

  method Exchange(a: array<Entry>, k: nat)
    requires 0 < k < a.Length
    modifies a
    ensures a[k - 1] == old(a[k]) && a[k] == old(a[k - 1])
    ensures forall i :: 0 <= i < a.Length && i != k && i != k - 1 ==> a[i] == old(a[i])
    ensures multiset(a[..]) == multiset(old(a[..]))
  {
    a[k - 1], a[k] := a[k], a[k - 1];
  }

  /** In order up to `n`, leaving out position `k`. */
  ghost predicate SortedBut(a: array<Entry>, n: nat, k: nat)
    requires n < a.Length
    reads a
  {
    forall i, j :: 0 <= i < j <= n && i != k && j != k ==> a[i].dip <= a[j].dip
  }

  /** Everything after position `k` is at least its element. */
  ghost predicate BelowRest(a: array<Entry>, n: nat, k: nat)
    requires k <= n < a.Length
    reads a
  {
    forall j :: k < j <= n ==> a[k].dip <= a[j].dip
  }

  /** Sinks the element at `n` into the sorted prefix before it. */
  method Insert(a: array<Entry>, n: nat)
    requires n < a.Length && Sorted(a[..n])
    modifies a
    ensures Sorted(a[..n + 1]) && multiset(a[..]) == multiset(old(a[..]))
  {
    var k: nat := n;
    assert forall i :: 0 <= i < n ==> a[..n][i] == a[i];
    while k > 0 && a[k - 1].dip > a[k].dip
      invariant k <= n && multiset(a[..]) == multiset(old(a[..]))
      invariant SortedBut(a, n, k) && BelowRest(a, n, k)
    {
      Exchange(a, k);
      k := k - 1;
    }
    ghost var prefix := a[..n + 1];
    forall i, j | 0 <= i < j < |prefix| ensures prefix[i].dip <= prefix[j].dip {
      if j == k {
        assert i < k - 1 ==> a[i].dip <= a[k - 1].dip;
      }
    }
  }

  method SortByDip(a: array<Entry>)
    modifies a
    ensures Sorted(a[..]) && multiset(a[..]) == multiset(old(a[..]))
  {
    var n := 0;
    while n < a.Length
      invariant n <= a.Length
      invariant Sorted(a[..n]) && multiset(a[..]) == multiset(old(a[..]))
    {
      Insert(a, n);
      n := n + 1;
    }
    assert a[..n] == a[..];
  }

  /** Binary search for the first position at or past the dip. */
  method Search(s: seq<Entry>, dip: real) returns (i: nat)
    requires Sorted(s)
    ensures i == FirstAtLeast(s, dip)
  {
    var lo, hi := 0, |s|;
    while lo < hi
      invariant lo <= hi <= |s|
      invariant forall j :: 0 <= j < lo ==> s[j].dip < dip
      invariant forall j :: hi <= j < |s| ==> s[j].dip >= dip
    {
      var mid := (lo + hi) / 2;
      if s[mid].dip >= dip {
        hi := mid;
      } else {
        lo := mid + 1;
      }
    }
    i := lo;
    FirstIs(s, dip, i);
  }

  method ReadOff(s: seq<Entry>, dip: real) returns (r: Lookup)
    requires Sorted(s) && s != []
    ensures r == LookUp(s, dip)
  {
    if dip < s[0].dip || dip > s[|s| - 1].dip {
      return OutOfRange;
    }
    var i := Search(s, dip);
    var hi := s[i];
    if hi.dip == dip {
      return Litres(hi.volume);
    }
    var lo := s[i - 1];
    var span := hi.dip - lo.dip;
    if span == 0.0 {
      return Litres(lo.volume);
    }
    var ratio := (dip - lo.dip) / span;
    r := Litres(lo.volume + ratio * (hi.volume - lo.volume));
  }

  /** The answer is the chart's, put in order. */
  ghost predicate AnswersSorted(entries: seq<Entry>, dip: real, r: Lookup) {
    exists s :: Sorted(s) && multiset(s) == multiset(entries) && r == LookUp(s, dip)
  }

  /** Sorts a copy and reads the volume off it. */
  method Interpolate(entries: seq<Entry>, dip: real) returns (r: Lookup)
    ensures AnswersSorted(entries, dip, r)
  {
    if |entries| == 0 {
      assert Sorted(entries) && LookUp(entries, dip) == EmptyChart;
      return EmptyChart;
    }
    var copied := new Entry[|entries|](i requires 0 <= i < |entries| => entries[i]);
    assert copied[..] == entries;
    SortByDip(copied);
    var s := copied[..];
    r := ReadOff(s, dip);
  }

  // ---- What the lookup promises ----

  lemma InTheChart(c: seq<Entry>, dip: real)
    requires c != [] && c[0].dip <= dip <= c[|c| - 1].dip
    ensures FirstAtLeast(c, dip) < |c| && (c[FirstAtLeast(c, dip)].dip != dip ==> FirstAtLeast(c, dip) > 0)
  {
  }

  lemma Product(x: real, y: real)
    requires 0.0 <= x <= 1.0 && y >= 0.0
    ensures 0.0 <= x * y <= y
  {
  }

  lemma ProductGrows(x: real, z: real, y: real)
    requires x <= z && y >= 0.0
    ensures x * y <= z * y
  {
    ProductSign(z - x, y);
    assert (z - x) * y == z * y - x * y;
  }

  lemma ProductSign(x: real, y: real)
    requires x >= 0.0 && y >= 0.0
    ensures x * y >= 0.0
  {
  }

  lemma Ratio(part: real, span: real)
    requires 0.0 <= part <= span && span > 0.0
    ensures 0.0 <= part / span <= 1.0
  {
  }

  lemma RatioGrows(part: real, more: real, span: real)
    requires part <= more && span > 0.0
    ensures part / span <= more / span
  {
  }

  lemma SegmentBetween(lo: Entry, hi: Entry, dip: real)
    requires Follows(lo, hi) && lo.dip <= dip <= hi.dip
    ensures lo.volume <= OnSegment(lo, hi, dip) <= hi.volume
  {
    Ratio(dip - lo.dip, hi.dip - lo.dip);
    Product((dip - lo.dip) / (hi.dip - lo.dip), hi.volume - lo.volume);
  }

  lemma SegmentGrows(lo: Entry, hi: Entry, d: real, e: real)
    requires Follows(lo, hi) && d <= e
    ensures OnSegment(lo, hi, d) <= OnSegment(lo, hi, e)
  {
    RatioGrows(d - lo.dip, e - lo.dip, hi.dip - lo.dip);
    ProductGrows((d - lo.dip) / (hi.dip - lo.dip), (e - lo.dip) / (hi.dip - lo.dip), hi.volume - lo.volume);
  }

  /** The segment a dip falls on bounds its volume. */
  lemma Bracketed(c: seq<Entry>, dip: real)
    requires Increasing(c) && c != [] && c[0].dip <= dip <= c[|c| - 1].dip
    ensures var i := FirstAtLeast(c, dip);
      i < |c| && VolumeAt(c, dip) <= c[i].volume && (i > 0 ==> c[i - 1].volume <= VolumeAt(c, dip))
  {
    InTheChart(c, dip);
    var i := FirstAtLeast(c, dip);
    if i > 0 {
      assert Follows(c[i - 1], c[i]);
      if c[i].dip != dip {
        SegmentBetween(c[i - 1], c[i], dip);
      }
    }
  }

  /** Charted points are hit exactly. */
  lemma HitsPoints(c: seq<Entry>, k: nat)
    requires Increasing(c) && k < |c|
    ensures c[0].dip <= c[k].dip <= c[|c| - 1].dip && VolumeAt(c, c[k].dip) == c[k].volume
  {
    assert k > 0 ==> Follows(c[0], c[k]);
    assert k < |c| - 1 ==> Follows(c[k], c[|c| - 1]);
    FirstIs(c, c[k].dip, k);
  }

  /** Between two neighbouring points the volume lies between theirs. */
  lemma BetweenNeighbours(c: seq<Entry>, k: nat, dip: real)
    requires Increasing(c) && k + 1 < |c| && c[k].dip <= dip <= c[k + 1].dip
    ensures c[0].dip <= dip <= c[|c| - 1].dip && c[k].volume <= VolumeAt(c, dip) <= c[k + 1].volume
  {
    HitsPoints(c, k);
    HitsPoints(c, k + 1);
    NonDecreasing(c, c[k].dip, dip);
    NonDecreasing(c, dip, c[k + 1].dip);
  }

  lemma Shares(part: real, span: real, rise: real)
    requires span > 0.0
    ensures part / span * rise * span == part * rise
  {
    assert part / span * span == part;
  }

  /** The point lies on the straight line through the other two. */
  predicate OnLine(lo: Entry, hi: Entry, dip: real, volume: real) {
    (volume - lo.volume) * (hi.dip - lo.dip) == (dip - lo.dip) * (hi.volume - lo.volume)
  }

  lemma SegmentOnLine(lo: Entry, hi: Entry, dip: real)
    requires Follows(lo, hi)
    ensures OnLine(lo, hi, dip, OnSegment(lo, hi, dip))
  {
    Shares(dip - lo.dip, hi.dip - lo.dip, hi.volume - lo.volume);
  }

  lemma EndsOnLine(lo: Entry, hi: Entry)
    ensures OnLine(lo, hi, lo.dip, lo.volume) && OnLine(lo, hi, hi.dip, hi.volume)
  {
  }

  lemma OnTheSegment(c: seq<Entry>, k: nat, dip: real)
    requires Increasing(c) && k + 1 < |c| && c[k].dip < dip < c[k + 1].dip
    requires c[0].dip <= dip <= c[|c| - 1].dip
    ensures VolumeAt(c, dip) == OnSegment(c[k], c[k + 1], dip)
  {
    assert forall j :: 0 <= j < k ==> Follows(c[j], c[k]);
    FirstIs(c, dip, k + 1);
  }

  /** Between two neighbouring points the volume rises in proportion to the depth. */
  lemma Proportional(c: seq<Entry>, k: nat, dip: real)
    requires Increasing(c) && k + 1 < |c| && c[k].dip <= dip <= c[k + 1].dip
    ensures c[0].dip <= dip <= c[|c| - 1].dip && OnLine(c[k], c[k + 1], dip, VolumeAt(c, dip))
  {
    HitsPoints(c, k);
    HitsPoints(c, k + 1);
    assert Follows(c[k], c[k + 1]);
    EndsOnLine(c[k], c[k + 1]);
    if dip != c[k].dip && dip != c[k + 1].dip {
      OnTheSegment(c, k, dip);
      SegmentOnLine(c[k], c[k + 1], dip);
    }
  }

  lemma FirstGrows(c: seq<Entry>, d: real, e: real)
    requires d <= e
    ensures FirstAtLeast(c, d) <= FirstAtLeast(c, e)
  {
  }

  /** More depth never means less fuel, across all segments. */
  lemma NonDecreasing(c: seq<Entry>, d: real, e: real)
    requires Increasing(c) && c != [] && c[0].dip <= d <= e <= c[|c| - 1].dip
    ensures VolumeAt(c, d) <= VolumeAt(c, e)
  {
    var i, j := FirstAtLeast(c, d), FirstAtLeast(c, e);
    FirstGrows(c, d, e);
    Bracketed(c, d);
    Bracketed(c, e);
    if i < j {
      assert i < j - 1 ==> Follows(c[i], c[j - 1]);
    } else if c[i].dip != e && c[i].dip != d {
      InTheChart(c, d);
      assert Follows(c[i - 1], c[i]);
      SegmentGrows(c[i - 1], c[i], d, e);
    }
  }

  // ---- Any order of the entries gives the same answer ----

  lemma LastIsMost(s: seq<Entry>, c: seq<Entry>)
    requires Sorted(s) && Increasing(c) && multiset(s) == multiset(c) && s != []
    ensures c != [] && s[|s| - 1] == c[|c| - 1]
  {
    assert s[|s| - 1] in multiset(s);
    assert c != [];
    var last, top := s[|s| - 1], c[|c| - 1];
    assert last in multiset(c) && top in multiset(s);
    var i :| 0 <= i < |c| && c[i] == last;
    var j :| 0 <= j < |s| && s[j] == top;
    assert i < |c| - 1 ==> Follows(c[i], top);
    assert j < |s| - 1 ==> s[j].dip <= last.dip;
  }

  lemma WithoutLast(s: seq<Entry>)
    requires s != []
    ensures multiset(s[..|s| - 1]) == multiset(s) - multiset{s[|s| - 1]}
  {
    assert s == s[..|s| - 1] + [s[|s| - 1]];
  }

  lemma SameLength(s: seq<Entry>, c: seq<Entry>)
    requires multiset(s) == multiset(c)
    ensures |s| == |c|
  {
    assert |s| == |multiset(s)| == |multiset(c)| == |c|;
  }

  /** A strictly increasing chart is the only way to put its entries in order. */
  lemma {:induction false} OneOrder(s: seq<Entry>, c: seq<Entry>)
    requires Sorted(s) && Increasing(c) && multiset(s) == multiset(c)
    ensures s == c
    decreases |s|
  {
    SameLength(s, c);
    if s != [] {
      LastIsMost(s, c);
      WithoutLast(s);
      WithoutLast(c);
      OneOrder(s[..|s| - 1], c[..|c| - 1]);
      assert s == s[..|s| - 1] + [s[|s| - 1]];
    }
  }

  /** Whatever order a valid chart's entries come in, a dip is answered exactly when it lies on the chart, and then
      with the chart's volume. */
  lemma OrderDoesNotMatter(c: seq<Entry>, entries: seq<Entry>, dip: real, r: Lookup)
    requires ValidChart(c) && multiset(entries) == multiset(c) && AnswersSorted(entries, dip, r)
    ensures r.Litres? <==> c[0].dip <= dip <= c[|c| - 1].dip
    ensures r.Litres? ==> r.volume == VolumeAt(c, dip)
    ensures !r.Litres? ==> r.OutOfRange?
  {
    var s :| Sorted(s) && multiset(s) == multiset(entries) && r == LookUp(s, dip);
    OneOrder(s, c);
  }
}

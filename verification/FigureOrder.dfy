/** Figures sorted by their text.

A report sorts a measure by the text of the aggregate.  A numeric prints as an optional minus, its whole part without
leading zeros and, if its scale is not zero, a point and exactly that many places; text is compared character by
character, where a minus comes before a point and a point before any digit.
 */
module FigureOrder {
  import opened DecimalText

  /** A numeric of a given scale: 9.50 is `Figure(950, 2)`. */
  datatype Figure = Figure(units: int, places: nat)

  function Abs(n: int): nat {
    if n < 0 then -n else n
  }

  function Over(n: nat, d: nat): nat
    requires d > 0
  {
    n / d
  }

  function Remaining(n: nat, d: nat): (r: nat)
    requires d > 0
    ensures r < d
  {
    n % d
  }

  function Whole(f: Figure): nat {
    Over(Abs(f.units), Pow10(f.places))
  }

  function Part(f: Figure): nat {
    Remaining(Abs(f.units), Pow10(f.places))
  }

  /** Exactly k digits. */
  function Pad(n: nat, k: nat): (s: string)
    requires n < Pow10(k)
    ensures |s| == k && AllDigits(s) && DigitsValue(s) == n
  {
    if k == 0 then []
    else
      var front, last := Pad(n / 10, k - 1), ['0' + (n % 10) as char];
      assert (front + last)[..|front|] == front;
      front + last
  }

  function Tail(f: Figure): string {
    if f.places == 0 then [] else ['.'] + Pad(Part(f), f.places)
  }

  function MagnitudeText(f: Figure): string {
    NatText(Whole(f)) + Tail(f)
  }

  function FigureText(f: Figure): string {
    if f.units < 0 then ['-'] + MagnitudeText(f) else MagnitudeText(f)
  }

  /** f < g as numbers. */
  predicate Less(f: Figure, g: Figure) {
    f.units * Pow10(g.places) < g.units * Pow10(f.places)
  }

  /** x sorts before y as text. */
  predicate TextLess(x: string, y: string) {
    y != [] && (x == [] || x[0] < y[0] || (x[0] == y[0] && TextLess(x[1..], y[1..])))
  }

  // ---- The condition ----

  /** The number its first d digits make. */
  function Leading(n: nat, d: nat): nat
    decreases n
  {
    if |NatText(n)| <= d || n < 10 then n else Leading(n / 10, d)
  }

  /** The whole part of the smaller is at most the equally many leading digits of the larger's. */
  predicate LeadsBelow(f: Figure, g: Figure) {
    Whole(f) <= Leading(Whole(g), |NatText(Whole(f))|)
  }

  /** For f < g: text order agrees unless the leading digits stand the other way round; among negatives it is the
      magnitudes that are read, so there it agrees only when they do. */
  predicate OrderKept(f: Figure, g: Figure) {
    if f.units >= 0 then LeadsBelow(f, g)
    else if g.units >= 0 then true
    else !LeadsBelow(g, f)
  }

  // ---- Comparing digits ----

  lemma TextLessCons(c: char, x: string, d: char, y: string)
    ensures TextLess([c] + x, [d] + y) <==> c < d || (c == d && TextLess(x, y))
  {
    assert ([c] + x)[1..] == x && ([d] + y)[1..] == y;
  }

  lemma {:induction false} DigitsLess(x: string, y: string, u: string, v: string)
    requires |x| == |y| && AllDigits(x) && AllDigits(y)
    ensures TextLess(x + u, y + v)
        <==> DigitsValue(x) < DigitsValue(y) || (DigitsValue(x) == DigitsValue(y) && TextLess(u, v))
  {
    if x == [] {
      assert x + u == u && y + v == v;
    } else {
      var n := |x| - 1;
      DigitsLess(x[..n], y[..n], [x[n]] + u, [y[n]] + v);
      TextLessCons(x[n], u, y[n], v);
      assert x + u == x[..n] + ([x[n]] + u) && y + v == y[..n] + ([y[n]] + v);
      assert IsDigit(x[n]) && IsDigit(y[n]);
    }
  }

  lemma SplitDigits(s: string, k: nat)
    requires AllDigits(s) && k <= |s|
    ensures AllDigits(s[..k]) && AllDigits(s[k..]) && s == s[..k] + s[k..]
  {
  }

  lemma {:induction false} TextLessOneWay(x: string, y: string)
    ensures !(TextLess(x, y) && TextLess(y, x))
  {
    if x != [] && y != [] {
      TextLessOneWay(x[1..], y[1..]);
    }
  }

  lemma {:induction false} LengthRises(n: nat, m: nat)
    requires n <= m
    ensures |NatText(n)| <= |NatText(m)|
  {
    if n >= 10 {
      LengthRises(n / 10, m / 10);
    }
  }

  lemma {:induction false} LeadingIs(n: nat, d: nat)
    requires 0 < d <= |NatText(n)|
    ensures AllDigits(NatText(n)[..d]) && DigitsValue(NatText(n)[..d]) == Leading(n, d)
    decreases n
  {
    if d == |NatText(n)| {
      assert NatText(n)[..d] == NatText(n);
    } else {
      assert NatText(n)[..d] == NatText(n / 10)[..d];
      LeadingIs(n / 10, d);
    }
  }

  // ---- Fractions ----

  lemma {:induction false} PowSum(a: nat, b: nat)
    ensures Pow10(a + b) == Pow10(a) * Pow10(b)
  {
    if a > 0 {
      PowSum(a - 1, b);
      Associate(10, Pow10(a - 1), Pow10(b));
    }
  }

  lemma {:induction false} DigitsConcat(x: string, y: string)
    requires AllDigits(x) && AllDigits(y)
    ensures AllDigits(x + y) && DigitsValue(x + y) == DigitsValue(x) * Pow10(|y|) + DigitsValue(y)
    ensures DigitsValue(y) < Pow10(|y|)
  {
    if y == [] {
      assert x + y == x;
    } else {
      var n := |y| - 1;
      DigitsConcat(x, y[..n]);
      assert (x + y)[..|x| + n] == x + y[..n] && (x + y)[|x| + n] == y[n];
      assert IsDigit(y[n]);
      NextDigit(DigitsValue(x), Pow10(n), DigitsValue(y[..n]), y[n] as int - '0' as int);
    }
  }

  lemma NextDigit(v: nat, p: nat, w: nat, d: nat)
    requires w < p && d < 10
    ensures 10 * (v * p + w) + d == v * (10 * p) + (10 * w + d) && 10 * w + d < 10 * p
  {
    Tenfold(v, p);
  }

  lemma Tenfold(a: nat, p: nat)
    ensures 10 * (a * p) == a * (10 * p)
  {
  }

  lemma Associate(a: int, b: int, c: int)
    ensures a * (b * c) == (a * b) * c
  {
  }

  lemma Distribute(a: int, b: int, c: int)
    ensures (a + b) * c == a * c + b * c
  {
  }

  lemma Scale(a: int, b: int, p: int)
    requires p > 0 && a <= b
    ensures a * p <= b * p
  {
  }

  lemma ScaleStrictly(a: int, b: int, p: int)
    requires p > 0 && a < b
    ensures a * p < b * p
  {
    Scale(a + 1, b, p);
    Distribute(a, 1, p);
  }

  lemma Cancel(a: int, b: int, p: int)
    requires p > 0 && a * p < b * p
    ensures a < b
  {
    if a >= b {
      Scale(b, a, p);
      assert false;
    }
  }

  /** x against y, where y has the head p and the rest r below `unit`. */
  lemma HeadBounds(x: nat, y: nat, p: nat, r: nat, unit: nat, k: nat)
    requires k > 0 && r < unit && y == p * unit + r && x * (unit * k) < y * k
    ensures x <= p && (r == 0 ==> x < p)
  {
    Associate(x, unit, k);
    Cancel(x * unit, y, k);
    Distribute(p, 1, unit);
    Cancel(x, p + 1, unit);
  }

  lemma HeadBelow(x: nat, y: nat, p: nat, r: nat, unit: nat, k: nat)
    requires k > 0 && unit > 0 && x == p * unit + r && x * k < y * (unit * k)
    ensures p < y
  {
    Associate(y, unit, k);
    Cancel(x, y * unit, k);
    Cancel(p, y, unit);
  }

  /** Dividing out the common power: x over 10^|x| is below y over 10^|y|. */
  lemma ShorterFirst(x: string, y: string, p: string, r: string)
    requires AllDigits(x) && AllDigits(y) && AllDigits(p) && AllDigits(r) && y == p + r && |p| == |x|
    requires DigitsValue(x) * Pow10(|y|) < DigitsValue(y) * Pow10(|x|)
    ensures TextLess(x, y)
  {
    DigitsConcat(p, r);
    PowSum(|r|, |x|);
    HeadBounds(DigitsValue(x), DigitsValue(y), DigitsValue(p), DigitsValue(r), Pow10(|r|), Pow10(|x|));
    DigitsLess(x, p, [], r);
    assert x + [] == x;
  }

  lemma LongerFirst(x: string, y: string, p: string, r: string)
    requires AllDigits(x) && AllDigits(y) && AllDigits(p) && AllDigits(r) && x == p + r && |p| == |y|
    requires DigitsValue(x) * Pow10(|y|) < DigitsValue(y) * Pow10(|x|)
    ensures TextLess(x, y)
  {
    DigitsConcat(p, r);
    PowSum(|r|, |y|);
    HeadBelow(DigitsValue(x), DigitsValue(y), DigitsValue(p), DigitsValue(r), Pow10(|r|), Pow10(|y|));
    DigitsLess(p, y, r, []);
    assert y + [] == y;
  }

  lemma TailLess(f: Figure, g: Figure)
    requires Part(f) * Pow10(g.places) < Part(g) * Pow10(f.places)
    ensures TextLess(Tail(f), Tail(g))
  {
    var x, y := Pad(Part(f), f.places), Pad(Part(g), g.places);
    if f.places > 0 && g.places > 0 {
      if |x| <= |y| {
        SplitDigits(y, |x|);
        ShorterFirst(x, y, y[..|x|], y[|x|..]);
      } else {
        SplitDigits(x, |y|);
        LongerFirst(x, y, x[..|y|], x[|y|..]);
      }
      TextLessCons('.', x, '.', y);
    }
  }

  // ---- Magnitudes ----

  lemma CompareWholes(w: nat, v: nat, unit: nat, a: nat, b: nat)
    requires b < unit && w * unit + a < v * unit + b
    ensures w <= v && (w == v ==> a < b)
  {
    Distribute(v, 1, unit);
    Cancel(w, v + 1, unit);
  }

  lemma Compare(w: nat, a: nat, p: nat, v: nat, b: nat, q: nat)
    requires p > 0 && q > 0 && a < p && b < q
    requires (w * p + a) * q < (v * q + b) * p
    ensures w <= v && (w == v ==> a * q < b * p)
  {
    Distribute(w * p, a, q);
    Associate(w, p, q);
    Distribute(v * q, b, p);
    Associate(v, q, p);
    ScaleStrictly(b, q, p);
    Scale(0, a, q);
    Scale(0, b, p);
    CompareWholes(w, v, p * q, a * q, b * p);
  }

  lemma Divided(n: nat, d: nat)
    requires d > 0
    ensures n == Over(n, d) * d + Remaining(n, d)
  {
  }

  lemma PartsCompare(f: Figure, g: Figure)
    requires f.units >= 0 && g.units >= 0 && Less(f, g)
    ensures Whole(f) <= Whole(g) && (Whole(f) == Whole(g) ==> Part(f) * Pow10(g.places) < Part(g) * Pow10(f.places))
  {
    var p, q := Pow10(f.places), Pow10(g.places);
    Divided(f.units, p);
    Divided(g.units, q);
    Compare(Whole(f), Part(f), p, Whole(g), Part(g), q);
  }

  /** Digits that go on come after digits that stop, whatever follows. */
  lemma GoesOn(x: string, p: string, r: string, u: string, v: string)
    requires |x| == |p| && AllDigits(x) && AllDigits(p) && r != [] && AllDigits(r) && (u == [] || u[0] == '.')
    ensures TextLess(x + u, p + (r + v)) <==> DigitsValue(x) <= DigitsValue(p)
    ensures TextLess(p + (r + v), x + u) <==> DigitsValue(x) > DigitsValue(p)
  {
    assert IsDigit(r[0]) && (r + v)[0] == r[0];
    DigitsLess(x, p, u, r + v);
    DigitsLess(p, x, r + v, u);
  }

  lemma SameLength(f: Figure, g: Figure, x: string, y: string)
    requires x == NatText(Whole(f)) && y == NatText(Whole(g)) && |x| == |y|
    requires Whole(f) <= Whole(g)
    requires Whole(f) == Whole(g) ==> TextLess(Tail(f), Tail(g))
    ensures TextLess(x + Tail(f), y + Tail(g)) && !TextLess(y + Tail(g), x + Tail(f))
  {
    DigitsLess(x, y, Tail(f), Tail(g));
    TextLessOneWay(x + Tail(f), y + Tail(g));
  }

  lemma FewerDigits(n: nat, m: nat, u: string, v: string)
    requires |NatText(n)| < |NatText(m)| && (u == [] || u[0] == '.')
    ensures TextLess(NatText(n) + u, NatText(m) + v) <==> n <= Leading(m, |NatText(n)|)
    ensures TextLess(NatText(m) + v, NatText(n) + u) <==> n > Leading(m, |NatText(n)|)
  {
    var x, y := NatText(n), NatText(m);
    LeadingIs(m, |x|);
    SplitDigits(y, |x|);
    GoesOn(x, y[..|x|], y[|x|..], u, v);
    Regroup(y, |x|, v);
  }

  lemma Regroup(y: string, k: nat, v: string)
    requires k <= |y|
    ensures y + v == y[..k] + (y[k..] + v)
  {
  }

  lemma MagnitudeOrder(f: Figure, g: Figure)
    requires f.units >= 0 && g.units >= 0 && Less(f, g)
    ensures TextLess(MagnitudeText(f), MagnitudeText(g)) <==> LeadsBelow(f, g)
    ensures TextLess(MagnitudeText(g), MagnitudeText(f)) <==> !LeadsBelow(f, g)
  {
    var x, y := NatText(Whole(f)), NatText(Whole(g));
    PartsCompare(f, g);
    LengthRises(Whole(f), Whole(g));
    if |x| == |y| {
      if Whole(f) == Whole(g) {
        TailLess(f, g);
      }
      SameLength(f, g, x, y);
    } else {
      FewerDigits(Whole(f), Whole(g), Tail(f), Tail(g));
    }
  }

  // ---- The theorem ----

  lemma SignedOrder(f: Figure, g: Figure)
    requires f.units < 0 <= g.units
    ensures TextLess(FigureText(f), FigureText(g)) && !TextLess(FigureText(g), FigureText(f))
  {
    var y := NatText(Whole(g));
    assert FigureText(g)[0] == y[0] && IsDigit(y[0]);
  }

  function Opposite(f: Figure): Figure {
    Figure(-f.units, f.places)
  }

  lemma Negated(n: int, p: int)
    ensures -n * p == -(n * p)
  {
  }

  lemma OppositeLess(f: Figure, g: Figure)
    requires Less(f, g)
    ensures Less(Opposite(g), Opposite(f))
  {
    Negated(f.units, Pow10(g.places));
    Negated(g.units, Pow10(f.places));
  }

  lemma OppositeText(f: Figure)
    requires f.units < 0
    ensures Whole(Opposite(f)) == Whole(f) && MagnitudeText(Opposite(f)) == MagnitudeText(f)
  {
  }

  lemma NegativeOrder(f: Figure, g: Figure)
    requires f.units < 0 && g.units < 0 && Less(f, g)
    ensures Less(Opposite(g), Opposite(f))
    ensures TextLess(FigureText(f), FigureText(g)) <==> !LeadsBelow(g, f)
    ensures TextLess(FigureText(g), FigureText(f)) <==> LeadsBelow(g, f)
  {
    OppositeLess(f, g);
    OppositeText(f);
    OppositeText(g);
    MagnitudeOrder(Opposite(g), Opposite(f));
    TextLessCons('-', MagnitudeText(f), '-', MagnitudeText(g));
    TextLessCons('-', MagnitudeText(g), '-', MagnitudeText(f));
  }

  /** Of two different figures, whatever their scales, the smaller sorts first as text if and only if their leading
      digits stand in order; otherwise the larger does. */
  lemma TextOrderIs(f: Figure, g: Figure)
    requires Less(f, g)
    ensures TextLess(FigureText(f), FigureText(g)) <==> OrderKept(f, g)
    ensures TextLess(FigureText(g), FigureText(f)) <==> !OrderKept(f, g)
  {
    SameSignOrMixed(f, g);
    if f.units >= 0 {
      MagnitudeOrder(f, g);
    } else if g.units >= 0 {
      SignedOrder(f, g);
    } else {
      NegativeOrder(f, g);
    }
  }

  lemma SameSignOrMixed(f: Figure, g: Figure)
    requires Less(f, g)
    ensures f.units >= 0 ==> g.units >= 0
  {
    if f.units >= 0 && g.units < 0 {
      Scale(0, f.units, Pow10(g.places));
      Scale(g.units, 0, Pow10(f.places));
      assert false;
    }
  }

  /** Non-negative figures with equally many whole digits keep their order. */
  lemma SameDigitsKeepOrder(f: Figure, g: Figure)
    requires Less(f, g) && f.units >= 0 && |NatText(Whole(f))| == |NatText(Whole(g))|
    ensures OrderKept(f, g)
  {
    SameSignOrMixed(f, g);
    PartsCompare(f, g);
  }

  /** A figure of three places prints as a litre column does. */
  lemma PrintsAsStored(n: int)
    ensures FigureText(Figure(n, 3)) == Text(n)
  {
    var m := Abs(n);
    assert Pow10(3) == 1000 by {
      assert Pow10(2) == 10 * Pow10(1) && Pow10(1) == 10 * Pow10(0);
    }
    ThreePlaces(m % 1000);
  }

  lemma ThreePlaces(n: nat)
    requires n < 1000 == Pow10(3)
    ensures Pad(n, 3) == ThreeDigits(n)
  {
    assert Pow10(2) == 100 && Pow10(1) == 10 && Pow10(0) == 1;
    assert Pad(n, 3) == Pad(n / 10, 2) + ['0' + (n % 10) as char];
    assert Pad(n / 10, 2) == Pad(n / 100, 1) + ['0' + (n / 10 % 10) as char];
    assert Pad(n / 100, 1) == ['0' + (n / 100 % 10) as char];
  }
}

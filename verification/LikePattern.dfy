/** SQL LIKE patterns, and what wrapping a value in percent signs makes of them. */
module LikePattern {

  /** Whether two characters are the same to the comparison: ILIKE ignores case. */
  type Same = (char, char) -> bool

  /** `%` stands for any text, `_` for one character, and a backslash takes the next character literally. */
  predicate Matches(same: Same, s: string, p: string)
    decreases |p|
  {
    if p == [] then s == []
    else if p[0] == '%' then exists k :: 0 <= k <= |s| && Matches(same, s[k..], p[1..])
    else if p[0] == '_' then s != [] && Matches(same, s[1..], p[1..])
    else if p[0] == '\\' then |p| > 1 && s != [] && same(s[0], p[1]) && Matches(same, s[1..], p[2..])
    else s != [] && same(s[0], p[0]) && Matches(same, s[1..], p[1..])
  }

  /** The pattern ends in a backslash that has nothing left to escape. */
  predicate Dangling(p: string)
    decreases |p|
  {
    p != [] && (if p[0] == '\\' then |p| == 1 || Dangling(p[2..]) else Dangling(p[1..]))
  }

  /** The text ends in a percent sign and what comes before it matches. */
  predicate BeforePercent(same: Same, s: string, p: string) {
    s != [] && same(s[|s| - 1], '%') && Matches(same, s[..|s| - 1], p)
  }

  /** The value, read as a pattern, occurs somewhere in the text.  Where it ends in a lone backslash that one
      escapes the closing percent sign, and the text must end in a percent sign after the occurrence. */
  ghost predicate Occurs(same: Same, s: string, x: string) {
    if Dangling(x)
    then exists i :: 0 <= i <= |s| && BeforePercent(same, s[i..], x[..|x| - 1])
    else exists i, j :: 0 <= i <= j <= |s| && Matches(same, s[i..j], x)
  }

  ghost predicate SomePrefix(same: Same, s: string, p: string) {
    exists j :: 0 <= j <= |s| && Matches(same, s[..j], p)
  }

  // ---- A closing percent sign ----

  /** Taking the first character off the pattern and some text off the front leaves the same question. */
  lemma PrefixAfter(same: Same, s: string, k: nat, p: string)
    requires k <= |s|
    ensures SomePrefix(same, s[k..], p) <==> exists j :: k <= j <= |s| && Matches(same, s[k..j], p)
  {
    if SomePrefix(same, s[k..], p) {
      var j :| 0 <= j <= |s[k..]| && Matches(same, s[k..][..j], p);
      assert s[k..][..j] == s[k..k + j];
    }
    if j :| k <= j <= |s| && Matches(same, s[k..j], p) {
      assert s[k..][..j - k] == s[k..j];
    }
  }

  lemma {:induction false} ClosingPercent(same: Same, s: string, p: string)
    requires !Dangling(p)
    ensures Matches(same, s, p + ['%']) <==> SomePrefix(same, s, p)
    decreases |p|
  {
    if p == [] {
      assert p + ['%'] == ['%'];
      assert Matches(same, s[|s|..], ['%'][1..]);
      assert Matches(same, s[..0], p);
    } else if p[0] == '%' {
      PercentThen(same, s, p);
    } else {
      var n := if p[0] == '\\' then 2 else 1;
      assert (p + ['%'])[n..] == p[n..] + ['%'];
      if s != [] {
        ClosingPercent(same, s[1..], p[n..]);
        PrefixAfter(same, s, 1, p[n..]);
        OneThen(same, s, p, n);
      }
    }
  }

  lemma PercentThen(same: Same, s: string, p: string)
    requires p != [] && p[0] == '%' && !Dangling(p)
    ensures Matches(same, s, p + ['%']) <==> SomePrefix(same, s, p)
    decreases |p|, 0
  {
    assert (p + ['%'])[1..] == p[1..] + ['%'];
    if Matches(same, s, p + ['%']) {
      var k :| 0 <= k <= |s| && Matches(same, s[k..], p[1..] + ['%']);
      ClosingPercent(same, s[k..], p[1..]);
      PrefixAfter(same, s, k, p[1..]);
      var j :| k <= j <= |s| && Matches(same, s[k..j], p[1..]);
      assert s[..j][k..] == s[k..j];
      assert Matches(same, s[..j], p);
    }
    if SomePrefix(same, s, p) {
      var j :| 0 <= j <= |s| && Matches(same, s[..j], p);
      var k :| 0 <= k <= |s[..j]| && Matches(same, s[..j][k..], p[1..]);
      assert s[..j][k..] == s[k..j];
      PrefixAfter(same, s, k, p[1..]);
      ClosingPercent(same, s[k..], p[1..]);
    }
  }

  /** One character of the text against one of the pattern. */
  lemma OneThen(same: Same, s: string, p: string, n: nat)
    requires p != [] && p[0] != '%' && s != [] && n == (if p[0] == '\\' then 2 else 1) && n <= |p|
    ensures SomePrefix(same, s, p)
       <==> (p[0] == '_' || same(s[0], p[n - 1])) && exists j :: 1 <= j <= |s| && Matches(same, s[1..j], p[n..])
  {
    if SomePrefix(same, s, p) {
      var j :| 0 <= j <= |s| && Matches(same, s[..j], p);
      assert j > 0 && s[..j][1..] == s[1..j];
    }
    if j :| 1 <= j <= |s| && Matches(same, s[1..j], p[n..]) {
      assert s[..j][1..] == s[1..j] && s[..j][0] == s[0];
      assert p[0] == '_' || same(s[0], p[n - 1]) ==> Matches(same, s[..j], p);
    }
  }

  // ---- An escaped percent sign ----

  lemma {:induction false} EscapedPercent(same: Same, s: string, p: string)
    requires !Dangling(p)
    ensures Matches(same, s, p + ['\\', '%']) <==> BeforePercent(same, s, p)
    decreases |p|
  {
    if p == [] {
      assert p + ['\\', '%'] == ['\\', '%'] && ['\\', '%'][2..] == [];
    } else if p[0] == '%' {
      PercentThenEscaped(same, s, p);
    } else {
      var n := if p[0] == '\\' then 2 else 1;
      assert (p + ['\\', '%'])[n..] == p[n..] + ['\\', '%'];
      if s != [] {
        EscapedPercent(same, s[1..], p[n..]);
        if |s| > 1 {
          assert s[1..][..|s| - 2] == s[..|s| - 1][1..];
        }
      }
    }
  }

  lemma PercentThenEscaped(same: Same, s: string, p: string)
    requires p != [] && p[0] == '%' && !Dangling(p)
    ensures Matches(same, s, p + ['\\', '%']) <==> BeforePercent(same, s, p)
    decreases |p|, 0
  {
    assert (p + ['\\', '%'])[1..] == p[1..] + ['\\', '%'];
    if Matches(same, s, p + ['\\', '%']) {
      var k :| 0 <= k <= |s| && Matches(same, s[k..], p[1..] + ['\\', '%']);
      EscapedPercent(same, s[k..], p[1..]);
      assert s[k..][..|s| - k - 1] == s[..|s| - 1][k..];
    }
    if BeforePercent(same, s, p) {
      var front := s[..|s| - 1];
      var k :| 0 <= k <= |front| && Matches(same, front[k..], p[1..]);
      assert s[k..][..|s| - k - 1] == front[k..];
      EscapedPercent(same, s[k..], p[1..]);
    }
  }

  lemma {:induction false} DanglingEnds(x: string)
    requires Dangling(x)
    ensures x[|x| - 1] == '\\' && !Dangling(x[..|x| - 1])
    decreases |x|
  {
    var n := if x[0] == '\\' then 2 else 1;
    if |x| > 1 {
      DanglingEnds(x[n..]);
      assert x[..|x| - 1][n..] == x[n..][..|x| - n - 1];
    }
  }

  // ---- The wrapped value ----

  lemma WrappedOpen(same: Same, s: string, x: string)
    requires !Dangling(x)
    ensures (exists k :: 0 <= k <= |s| && Matches(same, s[k..], x + ['%'])) <==> Occurs(same, s, x)
  {
    if k :| 0 <= k <= |s| && Matches(same, s[k..], x + ['%']) {
      ClosingPercent(same, s[k..], x);
      PrefixAfter(same, s, k, x);
    }
    if i, j :| 0 <= i <= j <= |s| && Matches(same, s[i..j], x) {
      PrefixAfter(same, s, i, x);
      ClosingPercent(same, s[i..], x);
    }
  }

  lemma WrappedEscaped(same: Same, s: string, x: string)
    requires Dangling(x)
    ensures (exists k :: 0 <= k <= |s| && Matches(same, s[k..], x + ['%'])) <==> Occurs(same, s, x)
  {
    DanglingEnds(x);
    var y := x[..|x| - 1];
    assert x + ['%'] == y + ['\\', '%'];
    forall k | 0 <= k <= |s| ensures Matches(same, s[k..], x + ['%']) <==> BeforePercent(same, s[k..], y) {
      EscapedPercent(same, s[k..], y);
    }
  }

  /** A value between percent signs matches exactly where it occurs. */
  lemma WrappedMeans(same: Same, s: string, x: string)
    ensures Matches(same, s, ['%'] + x + ['%']) <==> Occurs(same, s, x)
  {
    assert (['%'] + x + ['%'])[1..] == x + ['%'];
    if Dangling(x) {
      WrappedEscaped(same, s, x);
    } else {
      WrappedOpen(same, s, x);
    }
  }

  // ---- Plain values ----

  /** No character of the value is special. */
  predicate Plain(x: string) {
    forall i :: 0 <= i < |x| ==> x[i] !in {'%', '_', '\\'}
  }

  predicate Alike(same: Same, s: string, x: string) {
    |s| == |x| && forall i :: 0 <= i < |x| ==> same(s[i], x[i])
  }

  lemma {:induction false} PlainMatches(same: Same, s: string, x: string)
    requires Plain(x)
    ensures !Dangling(x) && (Matches(same, s, x) <==> Alike(same, s, x))
    decreases |x|
  {
    if x != [] {
      assert x[0] !in {'%', '_', '\\'};
      PlainMatches(same, if s == [] then [] else s[1..], x[1..]);
      if s != [] && |s| == |x| {
        assert forall i :: 0 < i < |x| ==> s[i] == s[1..][i - 1] && x[i] == x[1..][i - 1];
        assert forall i :: 0 <= i < |x| - 1 ==> s[1..][i] == s[i + 1] && x[1..][i] == x[i + 1];
      }
    }
  }

  /** A value without special characters is found exactly where the text contains it. */
  lemma PlainOccurs(same: Same, s: string, x: string)
    requires Plain(x)
    ensures Occurs(same, s, x) <==> exists i, j :: 0 <= i <= j <= |s| && Alike(same, s[i..j], x)
  {
    forall i, j | 0 <= i <= j <= |s| ensures Matches(same, s[i..j], x) <==> Alike(same, s[i..j], x) {
      PlainMatches(same, s[i..j], x);
    }
    PlainMatches(same, s, x);
  }
}

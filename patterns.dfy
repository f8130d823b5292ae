/**
 * The channel and category filters of addon.cpp: the comma- or
 * line-separated pattern lists of the settings, the glob matcher behind
 * them, and the check for `####` separator rows that some providers put
 * between real channels.
 */
module Patterns {
  import opened Text

  // ---------------------------------------------------------------------------
  // SplitPatterns
  // ---------------------------------------------------------------------------

  predicate IsPatternSeparator(c: char) { c == ',' || c == '\n' || c == '\r' }

  /**
   * The fields of a pattern setting: the text between separators, in
   * order; `n` separators make `n + 1` fields, some of them empty.
   */
  function Fields(raw: string): (r: seq<string>)
    ensures |r| >= 1
    decreases |raw|
  {
    if raw == [] then [[]]
    else
      var f := Fields(raw[..|raw| - 1]);
      var c := raw[|raw| - 1];
      if IsPatternSeparator(c) then f + [[]] else f[..|f| - 1] + [f[|f| - 1] + [c]]
  }

  /** How a field becomes a pattern: trimmed, then lower-cased. */
  function Normalize(field: string): string {
    ToLower(Trimmed(field))
  }

  /** The patterns of a list of fields: every field that is not blank, normalised. */
  function KeepPatterns(fields: seq<string>): seq<string>
    decreases |fields|
  {
    if fields == [] then []
    else
      var f := fields[|fields| - 1];
      KeepPatterns(fields[..|fields| - 1]) + (if Trimmed(f) != [] then [Normalize(f)] else [])
  }

  /** The list `SplitPatterns` returns for a setting. */
  function PatternsOf(raw: string): seq<string> {
    KeepPatterns(Fields(raw))
  }

  /**
   * `SplitPatterns`: bytes accumulate in `cur` until a separator or the
   * end, and each accumulated field that is not blank after trimming is
   * kept lower-cased.
   */
  method SplitPatterns(raw: string) returns (out: seq<string>)
    ensures out == PatternsOf(raw)
  {
    out := [];
    var cur: string := [];
    ghost var done: seq<string> := [];
    var i := 0;
    while i < |raw|
      invariant i <= |raw|
      invariant Fields(raw[..i]) == done + [cur]
      invariant out == KeepPatterns(done)
    {
      var c := raw[i];
      assert raw[..i + 1][..i] == raw[..i];
      if IsPatternSeparator(c) {
        var t := Trim(cur);
        if t != [] {
          out := out + [ToLower(t)];
        }
        assert (done + [cur])[..|done|] == done;
        done := done + [cur];
        cur := [];
      } else {
        assert (done + [cur])[..|done|] == done;
        cur := cur + [c];
      }
      i := i + 1;
    }
    assert raw[..i] == raw;
    var t := Trim(cur);
    if t != [] {
      out := out + [ToLower(t)];
    }
    assert (done + [cur])[..|done|] == done;
  }

  /** Fields never hold a separator. */
  lemma {:induction false} FieldsHaveNoSeparator(raw: string, i: nat, k: nat)
    requires i < |Fields(raw)| && k < |Fields(raw)[i]|
    ensures !IsPatternSeparator(Fields(raw)[i][k])
    decreases |raw|
  {
    var init := raw[..|raw| - 1];
    var f := Fields(init);
    if IsPatternSeparator(raw[|raw| - 1]) {
      if i < |f| {
        FieldsHaveNoSeparator(init, i, k);
      }
    } else if i < |f| - 1 {
      FieldsHaveNoSeparator(init, i, k);
    } else if k < |f[|f| - 1]| {
      FieldsHaveNoSeparator(init, i, k);
    }
  }

  /** The separators of a setting, in order. */
  function SeparatorCount(raw: string): nat
    decreases |raw|
  {
    if raw == [] then 0
    else SeparatorCount(raw[..|raw| - 1]) + (if IsPatternSeparator(raw[|raw| - 1]) then 1 else 0)
  }

  /** The setting with its separators removed. */
  function WithoutSeparators(raw: string): string
    decreases |raw|
  {
    if raw == [] then []
    else WithoutSeparators(raw[..|raw| - 1]) + (if IsPatternSeparator(raw[|raw| - 1]) then [] else [raw[|raw| - 1]])
  }

  function Flatten(fields: seq<string>): string
    decreases |fields|
  {
    if fields == [] then [] else Flatten(fields[..|fields| - 1]) + fields[|fields| - 1]
  }

  /**
   * The fields partition the setting: one more field than separators,
   * and the fields laid end to end are the setting without its separators.
   */
  lemma {:induction false} FieldsPartition(raw: string)
    ensures |Fields(raw)| == SeparatorCount(raw) + 1
    ensures Flatten(Fields(raw)) == WithoutSeparators(raw)
    decreases |raw|
  {
    if raw != [] {
      var init := raw[..|raw| - 1];
      var f := Fields(init);
      var c := raw[|raw| - 1];
      FieldsPartition(init);
      if IsPatternSeparator(c) {
        assert (f + [[]])[..|f|] == f;
        assert Flatten(f + [[]]) == Flatten(f) + [];
      } else {
        var g := f[..|f| - 1];
        assert (g + [f[|f| - 1] + [c]])[..|g|] == g;
        assert f == g + [f[|f| - 1]];
        assert Flatten(f) == Flatten(g) + f[|f| - 1];
      }
    }
  }

  /** Every pattern kept comes from a field that is not blank. */
  lemma {:induction false} KeptFromField(fields: seq<string>, x: string)
    requires x in KeepPatterns(fields)
    ensures exists i :: 0 <= i < |fields| && Trimmed(fields[i]) != [] && x == Normalize(fields[i])
    decreases |fields|
  {
    var n := |fields|;
    var init := fields[..n - 1];
    if x in KeepPatterns(init) {
      KeptFromField(init, x);
      var i :| 0 <= i < |init| && Trimmed(init[i]) != [] && x == Normalize(init[i]);
      assert fields[i] == init[i];
    }
  }

  /** Every field that is not blank gives a pattern. */
  lemma {:induction false} FieldIsKept(fields: seq<string>, i: nat)
    requires i < |fields| && Trimmed(fields[i]) != []
    ensures Normalize(fields[i]) in KeepPatterns(fields)
    decreases |fields|
  {
    var n := |fields|;
    if i < n - 1 {
      var init := fields[..n - 1];
      assert init[i] == fields[i];
      FieldIsKept(init, i);
    }
  }

  /** A pattern: not empty, trimmed, lower case and free of separators. */
  predicate WellFormedPattern(x: string) {
    x != [] && !IsSpace(x[0]) && !IsSpace(x[|x| - 1]) &&
    forall k :: 0 <= k < |x| ==> LowerChar(x[k]) == x[k] && !IsPatternSeparator(x[k])
  }

  /** Every pattern `SplitPatterns` returns is well formed. */
  lemma SplitPatternsShape(raw: string, x: string)
    requires x in PatternsOf(raw)
    ensures WellFormedPattern(x)
  {
    var fields := Fields(raw);
    KeptFromField(fields, x);
    var i :| 0 <= i < |fields| && Trimmed(fields[i]) != [] && x == Normalize(fields[i]);
    forall k | 0 <= k < |fields[i]| ensures !IsPatternSeparator(fields[i][k]) {
      FieldsHaveNoSeparator(raw, i, k);
    }
    NormalizeShape(fields[i]);
  }

  /** A field without separators that is not blank normalises to a well-formed pattern. */
  lemma NormalizeShape(f: string)
    requires Trimmed(f) != []
    requires forall k :: 0 <= k < |f| ==> !IsPatternSeparator(f[k])
    ensures WellFormedPattern(Normalize(f))
  {
    var t := Trimmed(f);
    TrimmedSlice(f);
    var start := SpacePrefixLen(f);
    var x := ToLower(t);
    forall k | 0 <= k < |x|
      ensures LowerChar(x[k]) == x[k] && !IsPatternSeparator(x[k])
    {
      assert t[k] == f[start + k];
    }
  }

  /** Conversely, every field of the setting that is not blank is one of the patterns. */
  lemma SplitPatternsComplete(raw: string, i: nat)
    requires i < |Fields(raw)| && Trimmed(Fields(raw)[i]) != []
    ensures Normalize(Fields(raw)[i]) in PatternsOf(raw)
  {
    FieldIsKept(Fields(raw), i);
  }

  // ---------------------------------------------------------------------------
  // LooksLikeChannelSeparator
  // ---------------------------------------------------------------------------

  /** Four `#` in a row start at `j`. */
  predicate HashRunAt(s: string, j: int) {
    0 <= j && j + 4 <= |s| && s[j] == '#' && s[j + 1] == '#' && s[j + 2] == '#' && s[j + 3] == '#'
  }

  /** A name with a run of at least four `#`: a separator row, not a channel. */
  predicate IsSeparatorName(s: string) {
    exists j :: 0 <= j < |s| && HashRunAt(s, j)
  }

  /** `LooksLikeChannelSeparator`: counts the current run of `#` and stops at four. */
  method LooksLikeChannelSeparator(name: string) returns (r: bool)
    ensures r == IsSeparatorName(name)
  {
    var run := 0;
    var i := 0;
    while i < |name|
      invariant i <= |name| && 0 <= run <= 3 && run <= i
      invariant forall k :: i - run <= k < i ==> name[k] == '#'
      invariant i - run == 0 || name[i - run - 1] != '#'
      invariant forall j :: 0 <= j && j + 4 <= i ==> !HashRunAt(name, j)
    {
      if name[i] == '#' {
        run := run + 1;
        if run >= 4 {
          assert HashRunAt(name, i - 3);
          return true;
        }
        forall j | 0 <= j && j + 4 <= i + 1 ensures !HashRunAt(name, j) {
          if j + 4 == i + 1 {
            assert name[i - run] != '#';
          }
        }
      } else {
        run := 0;
      }
      i := i + 1;
    }
    return false;
  }

  // ---------------------------------------------------------------------------
  // Glob matching
  // ---------------------------------------------------------------------------

  /**
   * The meaning of a pattern: `*` matches any run of bytes, possibly
   * empty, and every other byte matches itself.
   */
  predicate Glob(p: string, t: string)
    decreases |p| + |t|
  {
    if p == [] then t == []
    else if p[0] == '*' then Glob(p[1..], t) || (t != [] && Glob(p, t[1..]))
    else t != [] && p[0] == t[0] && Glob(p[1..], t[1..])
  }

  predicate StarFree(s: string) { forall k :: 0 <= k < |s| ==> s[k] != '*' }

  predicate AllStars(s: string) { forall k :: 0 <= k < |s| ==> s[k] == '*' }

  /** Only stars match the empty text. */
  lemma {:induction false} GlobEmptyText(p: string)
    ensures Glob(p, []) <==> AllStars(p)
    decreases |p|
  {
    if p != [] {
      GlobEmptyText(p[1..]);
    }
  }

  /** A pattern starting with `*` that matches a suffix of the text matches the text. */
  lemma {:induction false} GlobStarSkip(p: string, t: string, k: nat)
    requires p != [] && p[0] == '*' && k <= |t| && Glob(p, t[k..])
    ensures Glob(p, t)
    decreases k
  {
    if k > 0 {
      assert t[1..][k - 1..] == t[k..];
      GlobStarSkip(p, t[1..], k - 1);
    }
  }

  /** A pattern starting with `*` matches only when the rest matches some suffix. */
  lemma {:induction false} GlobStarSplit(p: string, t: string) returns (k: nat)
    requires p != [] && p[0] == '*' && Glob(p, t)
    ensures k <= |t| && Glob(p[1..], t[k..])
    decreases |t|
  {
    if Glob(p[1..], t) {
      k := 0;
    } else {
      var k' := GlobStarSplit(p, t[1..]);
      assert t[1..][k'..] == t[k' + 1..];
      k := k' + 1;
    }
  }

  /** A star-free prefix of a pattern must spell the front of the text. */
  lemma {:induction false} GlobLiteral(lit: string, rest: string, t: string)
    requires StarFree(lit)
    ensures Glob(lit + rest, t) <==> |lit| <= |t| && t[..|lit|] == lit && Glob(rest, t[|lit|..])
    decreases |lit|
  {
    if lit == [] {
      assert lit + rest == rest;
    } else {
      assert (lit + rest)[0] == lit[0] && (lit + rest)[1..] == lit[1..] + rest;
      if t != [] {
        GlobLiteral(lit[1..], rest, t[1..]);
        if |lit| <= |t| {
          assert t[1..][|lit| - 1..] == t[|lit|..];
          assert t[..|lit|] == [t[0]] + t[1..][..|lit| - 1];
          assert lit == [lit[0]] + lit[1..];
        }
      }
    }
  }

  /** The whole pattern `*` matches every text. */
  lemma {:induction false} StarMatchesAll(t: string)
    ensures Glob("*", t)
    decreases |t|
  {
    assert "*"[1..] == [];
    if t != [] {
      StarMatchesAll(t[1..]);
    }
  }

  // ---------------------------------------------------------------------------
  // WildcardMatchLower
  // ---------------------------------------------------------------------------

  /**
   * The state of the matching loop: `pi` and `ti` are the cursors; after
   * a `*` at `star` the bytes of the pattern since it have been matched
   * literally against the text from `m` on.
   */
  predicate ScanState(p: string, t: string, pi: nat, ti: nat, star: Option<nat>, m: nat) {
    pi <= |p| && m <= ti <= |t| &&
    (star.Some? ==>
      star.value < pi && p[star.value] == '*' && pi - star.value - 1 == ti - m &&
      forall k :: star.value < k < pi ==> p[k] != '*' && p[k] == t[m + k - star.value - 1])
  }

  /**
   * What is still possible in a state: the rest of the pattern matches the
   * rest of the text, or, after a `*`, the pattern from the `*` matches the
   * text from one byte after where the `*` began.
   */
  predicate Pending(p: string, t: string, pi: nat, ti: nat, star: Option<nat>, m: nat)
    requires ScanState(p, t, pi, ti, star, m)
  {
    Glob(p[pi..], t[ti..]) || (star.Some? && m < |t| && Glob(p[star.value..], t[m + 1..]))
  }

  lemma LiteralStep(p: string, t: string, pi: nat, ti: nat, star: Option<nat>, m: nat)
    requires ScanState(p, t, pi, ti, star, m) && pi < |p| && ti < |t| && p[pi] == t[ti] && p[pi] != '*'
    ensures ScanState(p, t, pi + 1, ti + 1, star, m)
    ensures Pending(p, t, pi + 1, ti + 1, star, m) == Pending(p, t, pi, ti, star, m)
  {
    assert p[pi..][1..] == p[pi + 1..] && t[ti..][1..] == t[ti + 1..];
  }

  lemma StarStep(p: string, t: string, pi: nat, ti: nat, star: Option<nat>, m: nat)
    requires ScanState(p, t, pi, ti, star, m) && pi < |p| && ti < |t| && p[pi] == '*'
    ensures ScanState(p, t, pi + 1, ti, Some(pi), ti)
    ensures Pending(p, t, pi + 1, ti, Some(pi), ti) == Pending(p, t, pi, ti, star, m)
  {
    assert p[pi..][1..] == p[pi + 1..] && t[ti..][1..] == t[ti + 1..];
    if star.Some? && m < |t| && Glob(p[star.value..], t[m + 1..]) {
      var s := star.value;
      var lit, rest := p[s + 1..pi], p[pi..];
      assert p[s..][1..] == lit + rest;
      var k := GlobStarSplit(p[s..], t[m + 1..]);
      var u := t[m + 1..][k..];
      assert StarFree(lit);
      GlobLiteral(lit, rest, u);
      assert u[|lit|..] == t[ti + 1 + k..];
      assert t[ti..][k + 1..] == t[ti + 1 + k..];
      GlobStarSkip(rest, t[ti..], k + 1);
    }
  }

  lemma ResetStep(p: string, t: string, pi: nat, ti: nat, s: nat, m: nat)
    requires ScanState(p, t, pi, ti, Some(s), m) && ti < |t|
    requires !(pi < |p| && (p[pi] == t[ti] || p[pi] == '*'))
    ensures ScanState(p, t, s + 1, m + 1, Some(s), m + 1)
    ensures Pending(p, t, s + 1, m + 1, Some(s), m + 1) == Pending(p, t, pi, ti, Some(s), m)
  {
    assert p[s..][1..] == p[s + 1..];
    if m + 1 < |t| {
      assert t[m + 1..][1..] == t[m + 2..];
    }
    assert !Glob(p[pi..], t[ti..]);
  }

  lemma FailStep(p: string, t: string, pi: nat, ti: nat, m: nat)
    requires ScanState(p, t, pi, ti, None, m) && ti < |t|
    requires !(pi < |p| && (p[pi] == t[ti] || p[pi] == '*'))
    ensures !Pending(p, t, pi, ti, None, m)
  {
  }

  lemma EndStep(p: string, t: string, pi: nat, star: Option<nat>, m: nat)
    requires ScanState(p, t, pi, |t|, star, m)
    ensures Pending(p, t, pi, |t|, star, m) == AllStars(p[pi..])
  {
    GlobEmptyText(p[pi..]);
    if star.Some? && m < |t| && Glob(p[star.value..], t[m + 1..]) {
      var s := star.value;
      var lit, rest := p[s + 1..pi], p[pi..];
      assert p[s..][1..] == p[s + 1..];
      assert p[s + 1..] == lit + rest;
      var k := GlobStarSplit(p[s..], t[m + 1..]);
      assert StarFree(lit);
      GlobLiteral(lit, rest, t[m + 1..][k..]);
      assert false;
    }
  }

  /**
   * `WildcardMatchLower` with the `*` test made before the literal test:
   * the greedy matcher that backtracks only to the last `*`. It decides
   * exactly `Glob`.
   */
  method WildcardMatchLower(p: string, t: string) returns (r: bool)
    ensures r == Glob(p, t)
  {
    var pi: nat, ti: nat, m: nat := 0, 0, 0;
    var star: Option<nat> := None;
    assert p[0..] == p && t[0..] == t;
    while ti < |t|
      invariant ScanState(p, t, pi, ti, star, m)
      invariant Pending(p, t, pi, ti, star, m) == Glob(p, t)
      decreases |t| - m, |t| - ti, |p| - pi
    {
      var fail;
      pi, ti, star, m, fail := MatchStep(p, t, pi, ti, star, m);
      if fail {
        return false;
      }
    }
    EndStep(p, t, pi, star, m);
    r := TrailingStars(p, pi);
  }

  /**
   * One pass of the matching loop: a `*` records a restart point, an equal
   * byte advances both, a mismatch restarts one byte further after the last
   * `*`, and a mismatch with no `*` seen fails.
   */
  method MatchStep(p: string, t: string, pi: nat, ti: nat, star: Option<nat>, m: nat)
    returns (pi': nat, ti': nat, star': Option<nat>, m': nat, fail: bool)
    requires ScanState(p, t, pi, ti, star, m) && ti < |t|
    ensures fail ==> !Pending(p, t, pi, ti, star, m)
    ensures !fail ==> ScanState(p, t, pi', ti', star', m')
                      && Pending(p, t, pi', ti', star', m') == Pending(p, t, pi, ti, star, m)
    ensures !fail ==> m' > m || (m' == m && (ti' > ti || (ti' == ti && pi' > pi)))
  {
    pi', ti', star', m', fail := pi, ti, star, m, false;
    if pi < |p| && p[pi] == '*' {
      StarStep(p, t, pi, ti, star, m);
      star', m' := Some(pi), ti;
      pi' := pi + 1;
    } else if pi < |p| && p[pi] == t[ti] {
      LiteralStep(p, t, pi, ti, star, m);
      pi', ti' := pi + 1, ti + 1;
    } else if star.Some? {
      ResetStep(p, t, pi, ti, star.value, m);
      pi', ti', m' := star.value + 1, m + 1, m + 1;
    } else {
      FailStep(p, t, pi, ti, m);
      fail := true;
    }
  }

  /** The final loop: skip `*`s and report whether the pattern is used up. */
  method TrailingStars(p: string, from: nat) returns (r: bool)
    requires from <= |p|
    ensures r == AllStars(p[from..])
  {
    var pi := from;
    while pi < |p| && p[pi] == '*'
      invariant from <= pi <= |p| && AllStars(p[from..pi])
    {
      assert p[from..pi + 1] == p[from..pi] + [p[pi]];
      pi := pi + 1;
    }
    r := pi == |p|;
    if r {
      assert p[from..] == p[from..pi];
    }
    if !r {
      assert p[from..][pi - from] == p[pi];
    }
  }

  /**
   * The loop of `WildcardMatchLower` as written: the literal test comes
   * first, so a `*` in the text is matched by a `*` of the pattern as an
   * ordinary byte, before the pattern's `*` is given the chance to stand
   * for a run.
   */
  function WildcardScan(p: string, t: string, pi: nat, ti: nat, star: Option<nat>, m: nat): bool
    requires pi <= |p| && m <= ti <= |t| && (star.Some? ==> star.value < pi)
    decreases |t| - m, |t| - ti, |p| - pi
  {
    if ti < |t| then
      if pi < |p| && p[pi] == t[ti] then WildcardScan(p, t, pi + 1, ti + 1, star, m)
      else if pi < |p| && p[pi] == '*' then WildcardScan(p, t, pi + 1, ti, Some(pi), ti)
      else if star.Some? then WildcardScan(p, t, star.value + 1, m + 1, star, m + 1)
      else false
    else AllStars(p[pi..])
  }

  /**
   * The result of the as-written loop: an empty pattern matches only the
   * empty text, and the empty text only a pattern of stars.
   */
  function WildcardMatchAsWritten(p: string, t: string): (r: bool)
    ensures p == [] ==> (r <==> t == [])
    ensures t == [] ==> (r <==> AllStars(p))
  {
    assert p[0..] == p;
    WildcardScan(p, t, 0, 0, None, 0)
  }

  /** On texts without `*` the order of the two tests does not matter. */
  lemma {:induction false} WildcardScanAgrees(p: string, t: string, pi: nat, ti: nat, star: Option<nat>, m: nat)
    requires StarFree(t) && ScanState(p, t, pi, ti, star, m)
    ensures WildcardScan(p, t, pi, ti, star, m) == Pending(p, t, pi, ti, star, m)
    decreases |t| - m, |t| - ti, |p| - pi
  {
    if ti < |t| {
      if pi < |p| && p[pi] == t[ti] {
        LiteralStep(p, t, pi, ti, star, m);
        WildcardScanAgrees(p, t, pi + 1, ti + 1, star, m);
      } else if pi < |p| && p[pi] == '*' {
        StarStep(p, t, pi, ti, star, m);
        WildcardScanAgrees(p, t, pi + 1, ti, Some(pi), ti);
      } else if star.Some? {
        ResetStep(p, t, pi, ti, star.value, m);
        WildcardScanAgrees(p, t, star.value + 1, m + 1, star, m + 1);
      } else {
        FailStep(p, t, pi, ti, m);
      }
    } else {
      EndStep(p, t, pi, star, m);
    }
  }

  /** As written, the matcher decides `Glob` for every text without `*`. */
  lemma AsWrittenMatchesGlob(p: string, t: string)
    requires StarFree(t)
    ensures WildcardMatchAsWritten(p, t) == Glob(p, t)
  {
    assert p[0..] == p && t[0..] == t;
    WildcardScanAgrees(p, t, 0, 0, None, 0);
  }

  /** But the pattern `*` does not match the text `*x` as written, although it should. */
  lemma AsWrittenStarCounterexample()
    ensures !WildcardMatchAsWritten("*", "*x")
    ensures Glob("*", "*x")
  {
    StarMatchesAll("*x");
    assert "*"[1..] == [];
  }

  // ---------------------------------------------------------------------------
  // PatternMatchesLower and ShouldFilterOut
  // ---------------------------------------------------------------------------

  /**
   * `PatternMatchesLower`: an empty pattern never matches; a pattern with
   * a `*` is a glob; any other pattern matches where it occurs in the text.
   */
  function PatternMatchesLower(p: string, t: string): (r: bool)
    ensures r ==> p != []
  {
    if p == [] then false
    else if !StarFree(p) then Glob(p, t)
    else Contains(t, p)
  }

  lemma ContainsMeaning(t: string, p: string)
    ensures Contains(t, p) <==> exists k :: OccursAt(t, p, k)
  {
    FindIsFirst(t, p, 0);
  }

  /** A pattern without `*` behaves as the glob `*pattern*`. */
  lemma SubstringIsGlob(p: string, t: string)
    requires p != [] && StarFree(p)
    ensures PatternMatchesLower(p, t) <==> Glob("*" + p + "*", t)
  {
    var g := "*" + p + "*";
    assert g[0] == '*' && g[1..] == p + "*";
    ContainsMeaning(t, p);
    if Glob(g, t) {
      var k := GlobStarSplit(g, t);
      GlobLiteral(p, "*", t[k..]);
      assert t[k..][..|p|] == t[k..k + |p|];
      assert OccursAt(t, p, k);
    }
    if Contains(t, p) {
      var k :| OccursAt(t, p, k);
      StarMatchesAll(t[k + |p|..]);
      assert t[k..][..|p|] == t[k..k + |p|] && t[k..][|p|..] == t[k + |p|..];
      GlobLiteral(p, "*", t[k..]);
      GlobStarSkip(g, t, k);
      assert Glob(g[1..], t[k..]);
    }
  }

  /** Some pattern of the list matches `text`. */
  predicate AnyMatches(patterns: seq<string>, text: string)
    decreases |patterns|
  {
    patterns != [] &&
    ((patterns[0] != [] && PatternMatchesLower(patterns[0], text)) || AnyMatches(patterns[1..], text))
  }

  /** Whether `ShouldFilterOut` drops `name`: some pattern matches its lower-case form. */
  function FilteredOut(patterns: seq<string>, name: string): bool {
    if patterns == [] then false else AnyMatches(patterns, ToLower(name))
  }

  /** `PatternMatchesLower`, dispatching to the wildcard matcher or the substring search. */
  method MatchPattern(p: string, t: string) returns (r: bool)
    ensures r == PatternMatchesLower(p, t)
  {
    if p == [] {
      return false;
    }
    if FindChar(p, '*', 0).Some? {
      StarFound(p);
      r := WildcardMatchLower(p, t);
    } else {
      StarAbsent(p);
      r := Find(t, p, 0).Some?;
    }
  }

  lemma StarFound(p: string)
    requires FindChar(p, '*', 0).Some?
    ensures !StarFree(p)
  {
    var k := FindChar(p, '*', 0).value;
    assert p[k] == '*';
  }

  lemma StarAbsent(p: string)
    requires FindChar(p, '*', 0).None?
    ensures StarFree(p)
  {
  }

  /**
   * `ShouldFilterOut`: no patterns, no match; otherwise the lower-cased
   * name is tried against each pattern in turn, skipping empty ones, and
   * the first match decides.
   */
  method ShouldFilterOut(patterns: seq<string>, name: string) returns (r: bool)
    ensures r == FilteredOut(patterns, name)
  {
    if patterns == [] {
      return false;
    }
    var nameLower := ToLower(name);
    var i := 0;
    while i < |patterns|
      invariant 0 <= i <= |patterns|
      invariant AnyMatches(patterns, nameLower) == AnyMatches(patterns[i..], nameLower)
    {
      assert patterns[i..][0] == patterns[i] && patterns[i..][1..] == patterns[i + 1..];
      if patterns[i] != [] {
        var m := MatchPattern(patterns[i], nameLower);
        if m {
          return true;
        }
      }
      i := i + 1;
    }
    r := false;
  }

  /** A name is filtered exactly when one of the patterns matches its lower-case form. */
  lemma {:induction false} AnyMatchesMeaning(patterns: seq<string>, text: string)
    ensures AnyMatches(patterns, text) <==> exists i :: 0 <= i < |patterns| && PatternMatchesLower(patterns[i], text)
    decreases |patterns|
  {
    if patterns != [] {
      AnyMatchesMeaning(patterns[1..], text);
      if exists i :: 0 <= i < |patterns| && PatternMatchesLower(patterns[i], text) {
        var i :| 0 <= i < |patterns| && PatternMatchesLower(patterns[i], text);
        if i > 0 {
          assert patterns[1..][i - 1] == patterns[i];
        }
      }
      if AnyMatches(patterns[1..], text) {
        var i :| 0 <= i < |patterns[1..]| && PatternMatchesLower(patterns[1..][i], text);
        assert patterns[i + 1] == patterns[1..][i];
      }
    }
  }

  lemma ShouldFilterOutMeaning(patterns: seq<string>, name: string)
    ensures FilteredOut(patterns, name) <==>
            exists i :: 0 <= i < |patterns| && PatternMatchesLower(patterns[i], ToLower(name))
  {
    AnyMatchesMeaning(patterns, ToLower(name));
  }
}

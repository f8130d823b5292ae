/**
 * `NormalizeChannelNameForEpg` (xtream_client.cpp): the form of a channel
 * name used to match provider streams with XMLTV guide channels. The name
 * is trimmed, its five XML entities decoded, its white space collapsed and
 * trimmed again, and a leading `"Category | "` is dropped.
 */
module EpgNames {
  import opened Text

  // ---------------------------------------------------------------------------
  // Channel-name normalisation
  // ---------------------------------------------------------------------------

  /** The five entities decoded, in the order of the source. */
  function DecodeEntities(s: string): string {
    var a := ReplaceScan(s, "&amp;", "&");
    var b := ReplaceScan(a, "&quot;", "\"");
    var c := ReplaceScan(b, "&#039;", "'");
    var d := ReplaceScan(c, "&lt;", "<");
    ReplaceScan(d, "&gt;", ">")
  }

  /**
   * The name used to match a stream with a guide channel: trimmed, entities
   * decoded, white space collapsed and trimmed again, and everything up to
   * the last `" | "` dropped when text follows it.
   */
  function NormalizedName(name: string): string {
    var s := Trimmed(name);
    if s == [] then []
    else
      CutPrefix(Trimmed(Collapse(DecodeEntities(s), false)))
  }

  /** A `" | "` starts at `k`. */
  predicate SepAt(c: string, k: int) {
    0 <= k && k + 3 <= |c| && c[k] == ' ' && c[k + 1] == '|' && c[k + 2] == ' '
  }

  /** `rfind(" | ")`: the last separator in `c`, if any. */
  function LastSeparator(c: string): (r: Option<nat>)
    ensures r.Some? ==> SepAt(c, r.value) && forall k :: r.value < k ==> !SepAt(c, k)
    ensures r.None? ==> forall k :: !SepAt(c, k)
  {
    LastSeparatorUpTo(c, |c| - 1)
  }

  /** The last separator starting at or before `i`. */
  function LastSeparatorUpTo(c: string, i: int): (r: Option<nat>)
    requires i < |c|
    ensures r.Some? ==> r.value <= i && SepAt(c, r.value) && forall k :: r.value < k <= i ==> !SepAt(c, k)
    ensures r.None? ==> forall k :: k <= i ==> !SepAt(c, k)
    decreases i + 1
  {
    if i < 0 then None
    else if SepAt(c, i) then Some(i)
    else LastSeparatorUpTo(c, i - 1)
  }

  /** The text after the last `" | "`, trimmed, when there is any; otherwise the whole text. */
  function CutPrefix(c: string): string {
    CutAt(c, LastSeparator(c))
  }

  /** The text after a separator found at `found`, trimmed, when any text follows it. */
  function CutAt(c: string, found: Option<nat>): string {
    match found
    case None => c
    case Some(pos) => if pos + 3 < |c| then Trimmed(c[pos + 3..]) else c
  }

  /** `NormalizeChannelNameForEpg`. */
  method NormalizeChannelNameForEpg(name: string) returns (r: string)
    ensures r == NormalizedName(name)
  {
    var s := Trim(name);
    if s == [] {
      return s;
    }
    var a := ReplaceAll(s, "&amp;", "&");
    var b := ReplaceAll(a, "&quot;", "\"");
    var c := ReplaceAll(b, "&#039;", "'");
    var d := ReplaceAll(c, "&lt;", "<");
    var e := ReplaceAll(d, "&gt;", ">");
    assert e == DecodeEntities(s);
    var collapsed := CollapseWhitespace(e);
    collapsed := Trim(collapsed);
    var pos := LastSeparator(collapsed);
    r := CutAfterSeparator(collapsed, pos);
  }

  /** The last step of `NormalizeChannelNameForEpg`: drop everything up to the separator found. */
  method CutAfterSeparator(c: string, found: Option<nat>) returns (r: string)
    ensures r == CutAt(c, found)
  {
    if found.Some? && found.value + 3 < |c| {
      r := Trim(c[found.value + 3..]);
    } else {
      r := c;
    }
  }

  lemma CollapsedSlice(r: string, i: nat, j: nat, t: string)
    requires Collapsed(r) && i <= j <= |r| && t == r[i..j]
    ensures Collapsed(t)
  {
    forall k | 0 <= k < |t| - 1 ensures !(t[k] == ' ' && t[k + 1] == ' ') {
      assert t[k] == r[i + k] && t[k + 1] == r[i + k + 1];
    }
  }

  /** Trimming only removes bytes from the ends. */
  /**
   * The normalised name is trimmed, its white space is collapsed, and it
   * holds no `" | "`: a category prefix is always removed.
   */
  lemma NormalizedNameShape(name: string)
    ensures var r := NormalizedName(name);
      Trimmed(r) == r && Collapsed(r) && forall k :: !SepAt(r, k)
  {
    var s := Trimmed(name);
    if s != [] {
      var x := Collapse(DecodeEntities(s), false);
      var c := Trimmed(x);
      CollapseIsCollapsed(DecodeEntities(s), false);
      TrimmedSlice(x);
      CollapsedSlice(x, SpacePrefixLen(x), SpacePrefixLen(x) + |c|, c);
      CutPrefixShape(c);
    }
  }

  lemma CutPrefixShape(c: string)
    requires Collapsed(c) && (c == [] || (!IsSpace(c[0]) && !IsSpace(c[|c| - 1])))
    ensures var r := CutPrefix(c);
      Trimmed(r) == r && Collapsed(r) && forall k :: !SepAt(r, k)
  {
    var cut, pos := CutPrefixCases(c);
    PieceShape(c, CutPrefix(c), cut, pos);
  }

  /** The piece `CutPrefix` keeps, described without `CutPrefix`. */
  lemma PieceShape(c: string, r: string, cut: bool, pos: nat)
    requires Collapsed(c) && (c == [] || (!IsSpace(c[0]) && !IsSpace(c[|c| - 1])))
    requires cut ==> pos + 3 < |c| && r == Trimmed(c[pos + 3..]) && forall k :: pos < k ==> !SepAt(c, k)
    requires !cut ==> r == c && forall k :: !SepAt(c, k)
    ensures Trimmed(r) == r && Collapsed(r) && forall k :: !SepAt(r, k)
  {
    if cut {
      TailShape(c, pos, r);
    }
    TrimmedUnchanged(r);
  }

  /** The trimmed text after the last separator is collapsed and holds no separator. */
  lemma TailShape(c: string, pos: nat, r: string)
    requires Collapsed(c) && pos + 3 < |c| && r == Trimmed(c[pos + 3..])
    requires forall k :: pos < k ==> !SepAt(c, k)
    ensures Collapsed(r) && forall k :: !SepAt(r, k)
  {
    var a := TailStart(c, pos + 3, r);
    NoSeparatorAfter(c, pos, a, a + |r|, r);
    CollapsedSlice(c, a, a + |r|, r);
  }

  /** The two ways `CutPrefix` goes, with the last separator when there is one. */
  lemma CutPrefixCases(c: string) returns (cut: bool, pos: nat)
    requires c == [] || !IsSpace(c[|c| - 1])
    ensures cut ==> pos + 3 < |c| && CutPrefix(c) == Trimmed(c[pos + 3..]) && forall k :: pos < k ==> !SepAt(c, k)
    ensures !cut ==> CutPrefix(c) == c && forall k :: !SepAt(c, k)
  {
    var found := LastSeparator(c);
    if found.None? {
      cut, pos := false, 0;
    } else {
      pos := found.value;
      assert c[pos + 2] == ' ';
      cut := true;
    }
  }

  /** Where `t`, the trimmed text after `from`, starts in `c`. */
  lemma TailStart(c: string, from: nat, t: string) returns (a: nat)
    requires from <= |c| && t == Trimmed(c[from..])
    ensures from <= a && a + |t| <= |c| && t == c[a..a + |t|]
  {
    var tail := c[from..];
    TrimmedSlice(tail);
    a := from + SpacePrefixLen(tail);
    assert t == tail[SpacePrefixLen(tail)..SpacePrefixLen(tail) + |t|];
  }

  /** Text that starts after the last `" | "` holds none. */
  lemma NoSeparatorAfter(c: string, pos: nat, a: nat, b: nat, t: string)
    requires (forall k :: pos < k ==> !SepAt(c, k)) && pos < a <= b <= |c| && t == c[a..b]
    ensures forall k :: !SepAt(t, k)
  {
    forall k | 0 <= k && k + 3 <= |t| ensures !SepAt(t, k) {
      assert t[k] == c[a + k] && t[k + 1] == c[a + k + 1] && t[k + 2] == c[a + k + 2];
      assert !SepAt(c, a + k);
    }
  }

  /** A display name the normalisation leaves alone: trimmed, collapsed, no entity, no `'|'`. */
  predicate PlainName(n: string) {
    n != [] && !IsSpace(n[0]) && !IsSpace(n[|n| - 1]) && Collapsed(n) && '&' !in n && '|' !in n
  }

  /** A plain name is its own normalisation. */
  lemma PlainNameUnchanged(n: string)
    requires PlainName(n)
    ensures NormalizedName(n) == n
  {
    NormalizedOfClean(n);
    forall k | 0 <= k && k + 3 <= |n| ensures !SepAt(n, k) {
      assert n[k + 1] in n;
    }
  }

  /**
   * A category prefix in front of a plain name is removed, whatever the
   * prefix holds, `" | "` included: only the last separator counts.
   */
  lemma StripsCategoryPrefix(p: string, n: string)
    requires PlainName(n)
    requires p != [] && !IsSpace(p[0]) && !IsSpace(p[|p| - 1]) && Collapsed(p) && '&' !in p
    ensures NormalizedName(p + " | " + n) == n
  {
    var x := p + " | " + n;
    JoinedShape(p, n, x);
    NormalizedOfClean(x);
    CutPrefixOfJoin(p, n, x);
  }

  /** For trimmed, collapsed text without entities only the prefix cut is left. */
  lemma NormalizedOfClean(x: string)
    requires x != [] && !IsSpace(x[0]) && !IsSpace(x[|x| - 1]) && Collapsed(x) && '&' !in x
    ensures NormalizedName(x) == CutPrefix(x)
  {
    TrimmedUnchanged(x);
    DecodeUnchanged(x);
    CollapseUnchanged(x, false);
  }

  lemma CutPrefixOfJoin(p: string, n: string, x: string)
    requires PlainName(n) && x == p + " | " + n
    ensures CutPrefix(x) == n
  {
    LastSeparatorOfJoin(p, n, x);
    assert x[|p| + 3..] == n;
    TrimmedUnchanged(n);
  }

  /** The joined name is trimmed, collapsed and entity-free. */
  lemma JoinedShape(p: string, n: string, x: string)
    requires PlainName(n)
    requires p != [] && !IsSpace(p[0]) && !IsSpace(p[|p| - 1]) && Collapsed(p) && '&' !in p
    requires x == p + " | " + n
    ensures !IsSpace(x[0]) && !IsSpace(x[|x| - 1]) && Collapsed(x) && '&' !in x
  {
    CollapsedJoin(p, " | ");
    CollapsedJoin(p + " | ", n);
    assert x[0] == p[0] && x[|x| - 1] == n[|n| - 1];
  }

  /** The separator put between prefix and name is the last one. */
  lemma LastSeparatorOfJoin(p: string, n: string, x: string)
    requires '|' !in n && n != [] && x == p + " | " + n
    ensures LastSeparator(x) == Some(|p|)
  {
    assert SepAt(x, |p|);
    forall k | |p| < k && k + 3 <= |x| ensures !SepAt(x, k) {
      if k == |p| + 1 {
        assert x[k] == '|';
      } else {
        assert x[k + 1] == n[k + 1 - |p| - 3];
      }
    }
  }

  /** Joining two collapsed texts keeps them collapsed unless two spaces meet. */
  lemma CollapsedJoin(a: string, b: string)
    requires Collapsed(a) && Collapsed(b)
    requires a == [] || b == [] || !(a[|a| - 1] == ' ' && b[0] == ' ')
    ensures Collapsed(a + b)
  {
    var x := a + b;
    forall k | 0 <= k < |x| - 1 ensures !(x[k] == ' ' && x[k + 1] == ' ') {
      if k < |a| - 1 {
        assert x[k] == a[k] && x[k + 1] == a[k + 1];
      } else if k >= |a| {
        assert x[k] == b[k - |a|] && x[k + 1] == b[k + 1 - |a|];
      }
    }
  }

  /** Text without `'&'` holds no entity, so decoding leaves it alone. */
  lemma DecodeUnchanged(s: string)
    requires '&' !in s
    ensures DecodeEntities(s) == s
  {
    NoEntity(s, "&amp;");
    ReplaceWithoutOccurrence(s, "&amp;", "&");
    NoEntity(s, "&quot;");
    ReplaceWithoutOccurrence(s, "&quot;", "\"");
    NoEntity(s, "&#039;");
    ReplaceWithoutOccurrence(s, "&#039;", "'");
    NoEntity(s, "&lt;");
    ReplaceWithoutOccurrence(s, "&lt;", "<");
    NoEntity(s, "&gt;");
    ReplaceWithoutOccurrence(s, "&gt;", ">");
  }

  lemma NoEntity(s: string, a: string)
    requires '&' !in s && |a| > 0 && a[0] == '&'
    ensures !Contains(s, a)
  {
    forall i | 0 <= i && i + |a| <= |s| ensures !OccursAt(s, a, i) {
      assert s[i..i + |a|][0] == s[i];
      assert s[i] in s;
    }
  }

  /** Collapsing text that is already collapsed changes nothing. */
  lemma {:induction false} CollapseUnchanged(s: string, prevSpace: bool)
    requires Collapsed(s)
    requires prevSpace && s != [] ==> !IsSpace(s[0])
    ensures Collapse(s, prevSpace) == s
    decreases |s|
  {
    if s != [] {
      var t := s[1..];
      CollapsedSlice(s, 1, |s|, t);
      if t != [] {
        assert t[0] == s[1];
      }
      CollapseUnchanged(t, IsSpace(s[0]));
      assert s == [s[0]] + t;
    }
  }
}

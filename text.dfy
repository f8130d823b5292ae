/**
 * Byte-string helpers shared by the add-on's translation units: the `Trim`
 * and `ToLower` helpers (each .cpp file keeps its own identical copy),
 * `std::string::find`/`rfind`, `std::to_string`, and the two in-place
 * rewriting loops used when normalising channel names (`replace_all` and the
 * whitespace collapse).
 *
 * A `string` here is a byte string: every `char` stands for one byte of the
 * C++ `std::string`. Bytes produced by the model itself are always below 256.
 */
module Text {

  datatype Option<T> = None | Some(value: T)

  /** `std::isspace` in the "C" locale. */
  predicate IsSpace(c: char) {
    c == ' ' || c == '\t' || c == '\n' || c == 11 as char || c == 12 as char || c == '\r'
  }

  predicate IsDigit(c: char) { '0' <= c <= '9' }

  function DigitValue(c: char): nat
    requires IsDigit(c)
  {
    (c as int) - ('0' as int)
  }

  function DigitChar(d: nat): char
    requires d < 10
  {
    (('0' as int) + d) as char
  }

  /** The byte value of a char, as `static_cast<unsigned char>` sees it. */
  function ByteOf(c: char): nat { (c as int) % 256 }

  /** `std::tolower` in the "C" locale: only `A`..`Z` change. */
  function LowerChar(c: char): char {
    if 'A' <= c <= 'Z' then (c as int + 32) as char else c
  }

  function ToLower(s: string): (r: string)
    ensures |r| == |s|
  {
    seq(|s|, i requires 0 <= i < |s| => LowerChar(s[i]))
  }

  predicate AllSpace(s: string) { forall k :: 0 <= k < |s| ==> IsSpace(s[k]) }

  // ---------------------------------------------------------------------------
  // Trim
  // ---------------------------------------------------------------------------

  /** Number of leading white-space bytes. */
  function SpacePrefixLen(s: string): (n: nat)
    ensures n <= |s|
    ensures AllSpace(s[..n])
    ensures n < |s| ==> !IsSpace(s[n])
  {
    if s == [] || !IsSpace(s[0]) then 0
    else
      var m := SpacePrefixLen(s[1..]);
      assert s[1..][..m] == s[1..m + 1];
      1 + m
  }

  /** Number of trailing white-space bytes. */
  function SpaceSuffixLen(s: string): (n: nat)
    ensures n <= |s|
    ensures AllSpace(s[|s| - n..])
    ensures n < |s| ==> !IsSpace(s[|s| - n - 1])
  {
    if s == [] || !IsSpace(s[|s| - 1]) then 0
    else
      var m := SpaceSuffixLen(s[..|s| - 1]);
      assert s[..|s| - 1][|s| - 1 - m..] == s[|s| - 1 - m..|s| - 1];
      1 + m
  }

  /** The value `Trim` returns: leading bytes removed first, then trailing ones. */
  function Trimmed(s: string): (r: string)
    ensures |r| <= |s|
    ensures r == [] || (!IsSpace(r[0]) && !IsSpace(r[|r| - 1]))
  {
    var i := SpacePrefixLen(s);
    var u := s[i..];
    var n := SpaceSuffixLen(u);
    var r := u[..|u| - n];
    assert r != [] ==> r[0] == s[i] && r[|r| - 1] == u[|u| - n - 1];
    r
  }

  /** The trimmed text is the slice between the leading and trailing white space. */
  lemma TrimmedSlice(s: string)
    ensures SpacePrefixLen(s) + |Trimmed(s)| <= |s|
    ensures Trimmed(s) == s[SpacePrefixLen(s)..SpacePrefixLen(s) + |Trimmed(s)|]
  {
    var i := SpacePrefixLen(s);
    var u := s[i..];
    var n := SpaceSuffixLen(u);
    assert Trimmed(s) == u[..|u| - n];
    assert u[..|u| - n] == s[i..i + (|u| - n)];
  }

  /** Text that starts with a byte that is not white space does not trim to nothing. */
  lemma TrimmedNonEmpty(s: string)
    requires s != [] && !IsSpace(s[0])
    ensures Trimmed(s) != []
  {
    assert SpacePrefixLen(s) == 0;
    assert s[0..] == s;
  }

  /** Everything `Trim` removes, at either end, is white space. */
  lemma TrimmedRemovesOnlySpace(s: string)
    ensures AllSpace(s[..SpacePrefixLen(s)])
    ensures SpacePrefixLen(s) + |Trimmed(s)| <= |s| && AllSpace(s[SpacePrefixLen(s) + |Trimmed(s)|..])
  {
    var i := SpacePrefixLen(s);
    var u := s[i..];
    var n := SpaceSuffixLen(u);
    assert |Trimmed(s)| == |u| - n;
    assert s[i + (|u| - n)..] == u[|u| - n..];
  }

  /** Text without white space at either end is its own trimming; in particular `Trim` is idempotent. */
  lemma TrimmedUnchanged(s: string)
    requires s == [] || (!IsSpace(s[0]) && !IsSpace(s[|s| - 1]))
    ensures Trimmed(s) == s
  {
    assert SpacePrefixLen(s) == 0;
    assert s[0..] == s;
    assert SpaceSuffixLen(s) == 0;
  }

  /**
   * `Trim` (addon.cpp and xtream_client.cpp): erases leading white space one
   * byte at a time, then pops trailing white space.
   */
  method Trim(s: string) returns (r: string)
    ensures r == Trimmed(s)
  {
    r := s;
    ghost var dropped := 0;
    while r != [] && IsSpace(r[0])
      invariant 0 <= dropped <= |s| && r == s[dropped..]
      invariant AllSpace(s[..dropped])
    {
      LeadingStep(s, dropped);
      r := r[1..];
      dropped := dropped + 1;
    }
    ghost var front := r;
    while r != [] && IsSpace(r[|r| - 1])
      invariant |r| <= |front| && r == front[..|r|]
      invariant AllSpace(front[|r|..])
    {
      TrailingStep(front, |r|);
      r := r[..|r| - 1];
    }
    TrimmedFromLoops(s, dropped, front, r);
  }

  lemma LeadingStep(s: string, n: nat)
    requires n < |s| && AllSpace(s[..n]) && IsSpace(s[n])
    ensures AllSpace(s[..n + 1]) && s[n..][1..] == s[n + 1..]
  {
  }

  lemma TrailingStep(front: string, m: nat)
    requires 0 < m <= |front| && AllSpace(front[m..]) && IsSpace(front[m - 1])
    ensures AllSpace(front[m - 1..]) && front[..m][..m - 1] == front[..m - 1]
  {
    assert front[m - 1..] == [front[m - 1]] + front[m..];
  }

  /** What the two loops of `Trim` leave behind is the trimmed text. */
  lemma TrimmedFromLoops(s: string, dropped: nat, front: string, r: string)
    requires dropped <= |s| && front == s[dropped..] && AllSpace(s[..dropped])
    requires front == [] || !IsSpace(front[0])
    requires |r| <= |front| && r == front[..|r|] && AllSpace(front[|r|..])
    requires r == [] || !IsSpace(r[|r| - 1])
    ensures r == Trimmed(s)
  {
    LeadingExit(s, dropped, front);
    TrailingExit(front, r);
    TrimmedOfParts(s, dropped, front, |front| - |r|, r);
  }

  lemma LeadingExit(s: string, dropped: nat, front: string)
    requires dropped <= |s| && front == s[dropped..] && AllSpace(s[..dropped])
    requires front == [] || !IsSpace(front[0])
    ensures dropped == SpacePrefixLen(s)
  {
    if dropped < |s| {
      assert s[dropped] == front[0];
    }
    LeadingCountIsPrefixLen(s, dropped);
  }

  lemma TrailingExit(front: string, r: string)
    requires |r| <= |front| && r == front[..|r|] && AllSpace(front[|r|..])
    requires r == [] || !IsSpace(r[|r| - 1])
    ensures |front| - |r| == SpaceSuffixLen(front)
  {
    if 0 < |r| {
      assert front[|r| - 1] == r[|r| - 1];
    }
    var n := |front| - |r|;
    assert front[|front| - n..] == front[|r|..];
    TrailingCountIsSuffixLen(front, n);
  }

  lemma TrimmedOfParts(s: string, i: nat, u: string, n: nat, r: string)
    requires i == SpacePrefixLen(s) && u == s[i..] && n == SpaceSuffixLen(u) && r == u[..|u| - n]
    ensures r == Trimmed(s)
  {
  }

  lemma {:induction false} LeadingCountIsPrefixLen(s: string, n: nat)
    requires n <= |s| && AllSpace(s[..n])
    requires n == |s| || !IsSpace(s[n])
    ensures SpacePrefixLen(s) == n
  {
    if n > 0 {
      assert s[1..][..n - 1] == s[1..n];
      LeadingCountIsPrefixLen(s[1..], n - 1);
    }
  }

  lemma {:induction false} TrailingCountIsSuffixLen(s: string, n: nat)
    requires n <= |s| && AllSpace(s[|s| - n..])
    requires n == |s| || !IsSpace(s[|s| - n - 1])
    ensures SpaceSuffixLen(s) == n
  {
    if n > 0 {
      var u := s[..|s| - 1];
      assert u[|u| - (n - 1)..] == s[|s| - n..|s| - 1];
      TrailingCountIsSuffixLen(u, n - 1);
    }
  }

  // ---------------------------------------------------------------------------
  // find / rfind
  // ---------------------------------------------------------------------------

  predicate OccursAt(s: string, pat: string, i: int) {
    0 <= i && i + |pat| <= |s| && s[i..i + |pat|] == pat
  }

  predicate StartsWith(s: string, prefix: string) {
    |prefix| <= |s| && s[..|prefix|] == prefix
  }

  lemma StartsWithConcat(s: string, a: string, b: string)
    requires StartsWith(s, a + b)
    ensures StartsWith(s, a)
    ensures StartsWith(s[|a|..], b)
  {
    PrefixSlice(s, a + b, 0, |a|);
    assert (a + b)[0..|a|] == a;
    PrefixSlice(s, a + b, |a|, |a| + |b|);
    assert (a + b)[|a|..|a| + |b|] == b;
    assert s[|a|..][..|b|] == s[|a|..|a| + |b|];
  }

  /** A slice that spells `a + b` splits into a slice spelling `a` and one spelling `b`. */
  lemma SplitSlice(s: string, i: nat, j: nat, k: nat, a: string, b: string)
    requires i <= j <= k <= |s| && s[i..k] == a + b && j - i == |a|
    ensures s[i..j] == a && s[j..k] == b
  {
    forall t | i <= t < k ensures s[t] == (a + b)[t - i] {
      assert s[t] == s[i..k][t - i];
    }
  }

  /** A slice inside a known prefix is the same slice of the prefix. */
  lemma PrefixSlice(s: string, prefix: string, i: nat, j: nat)
    requires StartsWith(s, prefix) && i <= j <= |prefix|
    ensures s[i..j] == prefix[i..j]
  {
    forall k | i <= k < j ensures s[k] == prefix[k] {
      assert s[..|prefix|][k] == s[k];
    }
  }

  /** `s.find(pat, from)`: the first occurrence at or after `from`. */
  function Find(s: string, pat: string, from: nat): (r: Option<nat>)
    ensures r.Some? ==> from <= r.value && OccursAt(s, pat, r.value)
    decreases |s| - from
  {
    if from + |pat| > |s| then None
    else if s[from..from + |pat|] == pat then Some(from)
    else Find(s, pat, from + 1)
  }

  /** `Find` returns the first occurrence: nothing earlier, and `None` only when there is none. */
  lemma {:induction false} FindIsFirst(s: string, pat: string, from: nat)
    ensures Find(s, pat, from).Some? ==> forall k :: from <= k < Find(s, pat, from).value ==> !OccursAt(s, pat, k)
    ensures Find(s, pat, from).None? ==> forall k :: from <= k ==> !OccursAt(s, pat, k)
    decreases |s| - from
  {
    if from + |pat| <= |s| && s[from..from + |pat|] != pat {
      FindIsFirst(s, pat, from + 1);
    }
  }

  function FindChar(s: string, c: char, from: nat): (r: Option<nat>)
    ensures r.Some? ==> from <= r.value < |s| && s[r.value] == c
    ensures r.Some? ==> forall k :: from <= k < r.value ==> s[k] != c
    ensures r.None? ==> forall k :: from <= k < |s| ==> s[k] != c
  {
    var f := Find(s, [c], from);
    FindIsFirst(s, [c], from);
    assert forall k :: OccursAt(s, [c], k) <==> 0 <= k < |s| && s[k] == c by {
      forall k ensures OccursAt(s, [c], k) <==> 0 <= k < |s| && s[k] == c {
        if 0 <= k < |s| {
          assert s[k..k + 1] == [s[k]];
        }
      }
    }
    f
  }

  /** `FindChar` stops at the first `c` from `from` on. */
  lemma FindCharAt(s: string, c: char, from: nat, p: nat)
    requires from <= p < |s| && s[p] == c
    requires forall k :: from <= k < p ==> s[k] != c
    ensures FindChar(s, c, from) == Some(p)
  {
  }

  /** A text laid out as `pre + a + b` holds `a` and then `b` after `pre`. */
  lemma WrittenAt(s: string, pre: string, a: string, b: string)
    requires StartsWith(s, pre + a + b)
    ensures |pre| + |a| + |b| <= |s|
    ensures s[|pre|..|pre| + |a|] == a && s[|pre| + |a|..|pre| + |a| + |b|] == b
  {
    PrefixSlice(s, pre + a + b, |pre|, |pre| + |a| + |b|);
    assert (pre + a + b)[|pre|..|pre| + |a| + |b|] == a + b;
    SplitSlice(s, |pre|, |pre| + |a|, |pre| + |a| + |b|, a, b);
  }

  /** `Find` stops at an occurrence when there is none between `from` and it. */
  lemma {:induction false} FindAt(s: string, pat: string, from: nat, p: nat)
    requires from <= p && OccursAt(s, pat, p)
    requires forall k :: from <= k < p ==> !OccursAt(s, pat, k)
    ensures Find(s, pat, from) == Some(p)
    decreases p - from
  {
    if from < p {
      assert !OccursAt(s, pat, from);
      FindAt(s, pat, from + 1, p);
    }
  }

  /** `Find` fails when there is no occurrence from `from` on. */
  lemma {:induction false} FindNone(s: string, pat: string, from: nat)
    requires forall k :: from <= k ==> !OccursAt(s, pat, k)
    ensures Find(s, pat, from) == None
    decreases |s| - from
  {
    if from + |pat| <= |s| {
      assert !OccursAt(s, pat, from);
      FindNone(s, pat, from + 1);
    }
  }

  predicate Contains(s: string, pat: string) { Find(s, pat, 0).Some? }

  // ---------------------------------------------------------------------------
  // std::to_string and decimal digits
  // ---------------------------------------------------------------------------

  function NatToString(n: nat): (r: string)
    ensures |r| > 0 && forall k :: 0 <= k < |r| ==> IsDigit(r[k])
  {
    if n < 10 then [DigitChar(n)] else NatToString(n / 10) + [DigitChar(n % 10)]
  }

  /** `std::to_string` of an integer. */
  function IntToString(n: int): string {
    if n < 0 then "-" + NatToString(-n) else NatToString(n)
  }

  predicate IsInt32(n: int) { -0x8000_0000 <= n < 0x8000_0000 }

  type u32 = x: int | 0 <= x < 0x1_0000_0000
  type i32 = x: int | -0x8000_0000 <= x < 0x8000_0000
  type u64 = x: int | 0 <= x < 0x1_0000_0000_0000_0000

  /** `static_cast<uint32_t>` (or `unsigned int`) of any integer: wrap-around modulo 2^32. */
  function U32Of(x: int): u32 { x % 0x1_0000_0000 }

  /** `static_cast<int>` of a wider integer: two's-complement wrap-around to 32 bits. */
  function WrapInt32(v: int): (r: int)
    ensures IsInt32(r)
    decreases if v < 0 then -v else v + 1
  {
    if v >= 0x8000_0000 then WrapInt32(v - 0x1_0000_0000)
    else if v < -0x8000_0000 then WrapInt32(v + 0x1_0000_0000)
    else v
  }

  /** The wrapped value differs from the original by a multiple of 2^32. */
  lemma {:induction false} WrapInt32Congruent(v: int)
    ensures (WrapInt32(v) - v) % 0x1_0000_0000 == 0
    decreases if v < 0 then -v else v + 1
  {
    if v >= 0x8000_0000 {
      WrapInt32Congruent(v - 0x1_0000_0000);
    } else if v < -0x8000_0000 {
      WrapInt32Congruent(v + 0x1_0000_0000);
    }
  }

  /** Reading back as `int32_t` the `uint32_t` an `int32_t` was stored as gives it again. */
  lemma WrapOfU32(v: int)
    requires IsInt32(v)
    ensures WrapInt32(U32Of(v)) == v
  {
    if v < 0 {
      assert U32Of(v) == v + 0x1_0000_0000;
      assert WrapInt32(v) == v;
    }
  }

  lemma WrapInt32Identity(n: int)
    requires IsInt32(n)
    ensures WrapInt32(n) == n
  {
  }

  lemma SkipOverSpaces(obj: string, pos: nat, q: nat)
    requires pos <= q < |obj| && AllSpace(obj[pos..q]) && !IsSpace(obj[q])
    ensures SkipSpaces(obj, pos) == q
    decreases q - pos
  {
    if pos < q {
      assert IsSpace(obj[pos..q][0]);
      assert obj[pos + 1..q] == obj[pos..q][1..];
      SkipOverSpaces(obj, pos + 1, q);
    }
  }

  lemma DigitsEndOfRun(obj: string, d: nat, e: nat)
    requires d <= e <= |obj|
    requires forall k :: d <= k < e ==> IsDigit(obj[k])
    requires e < |obj| ==> !IsDigit(obj[e])
    ensures DigitsEnd(obj, d) == e
    decreases e - d
  {
    if d < e {
      DigitsEndOfRun(obj, d + 1, e);
    }
  }

  /** The cursor after skipping white space from `pos` (`while isspace ++pos`). */
  function SkipSpaces(s: string, pos: nat): (r: nat)
    ensures pos <= r
    ensures pos <= |s| ==> r <= |s|
    ensures r < |s| ==> !IsSpace(s[r])
    ensures forall k :: pos <= k < r ==> k < |s| && IsSpace(s[k])
    decreases |s| - pos
  {
    if pos < |s| && IsSpace(s[pos]) then SkipSpaces(s, pos + 1) else pos
  }

  /** The cursor after the run of decimal digits starting at `pos`. */
  function DigitsEnd(s: string, pos: nat): (r: nat)
    requires pos <= |s|
    ensures pos <= r <= |s|
    ensures r < |s| ==> !IsDigit(s[r])
    ensures forall k :: pos <= k < r ==> IsDigit(s[k])
    decreases |s| - pos
  {
    if pos < |s| && IsDigit(s[pos]) then DigitsEnd(s, pos + 1) else pos
  }

  predicate AllDigits(s: string) { forall k :: 0 <= k < |s| ==> IsDigit(s[k]) }

  /** The value of a run of decimal digits, read left to right. */
  function DigitsValue(s: string): nat
    requires AllDigits(s)
  {
    if s == [] then 0 else DigitsValue(s[..|s| - 1]) * 10 + DigitValue(s[|s| - 1])
  }

  /** Reading back what `std::to_string` wrote gives the number again. */
  lemma {:induction false} DigitsValueOfNatToString(n: nat)
    ensures DigitsValue(NatToString(n)) == n
  {
    var r := NatToString(n);
    if n < 10 {
      assert r[..0] == [];
    } else {
      DigitsValueOfNatToString(n / 10);
      assert r[..|r| - 1] == NatToString(n / 10);
    }
  }

  /**
   * `std::stoi` (base 10): leading white space, an optional sign, then at
   * least one digit; what follows the digits is ignored. No digit throws
   * `invalid_argument` and a value outside `int` throws `out_of_range`; both
   * are `None` here.
   */
  function Stoi(s: string): (r: Option<int>)
    ensures r.Some? ==> IsInt32(r.value)
  {
    var p := SkipSpaces(s, 0);
    var signed := p < |s| && (s[p] == '-' || s[p] == '+');
    var q := if signed then p + 1 else p;
    var e := DigitsEnd(s, q);
    if e == q then None
    else
      var v: int := DigitsValue(s[q..e]);
      var n := if signed && s[p] == '-' then -v else v;
      if IsInt32(n) then Some(n) else None
  }

  lemma DigitRunAt(s: string, q: nat, digits: string)
    requires q + |digits| <= |s| && s[q..q + |digits|] == digits && AllDigits(digits)
    requires q + |digits| == |s| || !IsDigit(s[q + |digits|])
    ensures DigitsEnd(s, q) == q + |digits|
  {
    forall k | q <= k < q + |digits| ensures IsDigit(s[k]) {
      assert s[k] == digits[k - q];
    }
    DigitsEndOfRun(s, q, q + |digits|);
  }

  /**
   * `std::stoi` reads back what `std::to_string` wrote, whatever follows
   * the number as long as it is not another digit.
   */
  lemma StoiOfIntToString(n: int, rest: string)
    requires IsInt32(n)
    requires rest == [] || !IsDigit(rest[0])
    ensures Stoi(IntToString(n) + rest) == Some(n)
  {
    var s := IntToString(n) + rest;
    var m: nat := if n < 0 then -n else n;
    var digits := NatToString(m);
    var q := if n < 0 then 1 else 0;
    assert s[q..q + |digits|] == digits;
    assert !IsSpace(s[0]);
    SkipOverSpaces(s, 0, 0);
    DigitRunAt(s, q, digits);
    DigitsValueOfNatToString(m);
  }

  // ---------------------------------------------------------------------------
  // Hex digits
  // ---------------------------------------------------------------------------

  /** The value of a hex digit of either case, or -1. */
  function HexVal(c: char): (r: int)
    ensures -1 <= r < 16
  {
    if '0' <= c <= '9' then c as int - '0' as int
    else if 'a' <= c <= 'f' then 10 + (c as int - 'a' as int)
    else if 'A' <= c <= 'F' then 10 + (c as int - 'A' as int)
    else -1
  }

  /** An upper-case hex digit. */
  function HexDigit(d: nat): (c: char)
    requires d < 16
    ensures HexVal(c) == d
  {
    if d < 10 then ('0' as int + d) as char else ('A' as int + d - 10) as char
  }

  // ---------------------------------------------------------------------------
  // replace_all
  // ---------------------------------------------------------------------------

  /**
   * Left-to-right, non-overlapping replacement of `a` by `b`: the reference
   * meaning of the `replace_all` loop.
   */
  function ReplaceScan(t: string, a: string, b: string): string
    requires |a| > 0
    decreases |t|
  {
    if |t| < |a| then t
    else if t[..|a|] == a then b + ReplaceScan(t[|a|..], a, b)
    else [t[0]] + ReplaceScan(t[1..], a, b)
  }

  lemma OccursInSuffix(t: string, a: string, pos: nat, k: nat)
    requires pos <= |t|
    ensures OccursAt(t[pos..], a, k) <==> OccursAt(t, a, pos + k)
  {
    if 0 <= k && k + |a| <= |t| - pos {
      assert t[pos..][k..k + |a|] == t[pos + k..pos + k + |a|];
    }
  }

  lemma {:induction false} ScanNoOccurrence(u: string, a: string, b: string)
    requires |a| > 0
    requires forall k :: 0 <= k ==> !OccursAt(u, a, k)
    ensures ReplaceScan(u, a, b) == u
    decreases |u|
  {
    if |u| >= |a| {
      assert !OccursAt(u, a, 0);
      forall k | 0 <= k ensures !OccursAt(u[1..], a, k) {
        OccursInSuffix(u, a, 1, k);
      }
      ScanNoOccurrence(u[1..], a, b);
    }
  }

  lemma {:induction false} ScanSkip(u: string, a: string, b: string, m: nat)
    requires |a| > 0 && m <= |u|
    requires forall k :: 0 <= k < m ==> !OccursAt(u, a, k)
    ensures ReplaceScan(u, a, b) == u[..m] + ReplaceScan(u[m..], a, b)
    decreases m
  {
    if m > 0 {
      assert !OccursAt(u, a, 0);
      if |u| < |a| {
        assert u[..m] + u[m..] == u;
        ScanNoOccurrence(u[m..], a, b);
      } else {
        forall k | 0 <= k < m - 1 ensures !OccursAt(u[1..], a, k) {
          OccursInSuffix(u, a, 1, k);
        }
        ScanSkip(u[1..], a, b, m - 1);
        assert u[1..][m - 1..] == u[m..];
        assert [u[0]] + u[1..][..m - 1] == u[..m];
      }
    }
  }

  /**
   * One step of the `replace_all` loop (replace the first occurrence at or
   * after the cursor, move the cursor past `b`) keeps "done prefix + scan of
   * the rest" unchanged.
   */
  lemma SpliceKeepsScan(t: string, a: string, b: string, pos: nat, p: nat)
    requires |a| > 0 && pos <= |t| && Find(t, a, pos) == Some(p)
    ensures p + |b| <= |t[..p] + b + t[p + |a|..]|
    ensures t[..pos] + ReplaceScan(t[pos..], a, b)
         == (t[..p] + b + t[p + |a|..])[..p + |b|] + ReplaceScan((t[..p] + b + t[p + |a|..])[p + |b|..], a, b)
  {
    ScanAtFirstOccurrence(t, a, b, pos, p);
    SpliceAlgebra(t, b, pos, p, |a|, ReplaceScan(t[pos..], a, b), ReplaceScan(t[p + |a|..], a, b));
  }

  lemma ScanAtFirstOccurrence(t: string, a: string, b: string, pos: nat, p: nat)
    requires |a| > 0 && pos <= |t| && Find(t, a, pos) == Some(p)
    ensures p + |a| <= |t|
    ensures ReplaceScan(t[pos..], a, b) == t[pos..p] + b + ReplaceScan(t[p + |a|..], a, b)
  {
    ScanUpToFirst(t, a, b, pos, p);
    ScanAtOccurrence(t, a, b, p);
    JoinThree(ReplaceScan(t[pos..], a, b), ReplaceScan(t[p..], a, b), t[pos..p], b, ReplaceScan(t[p + |a|..], a, b));
  }

  /** `w == x + v` and `v == y + z` give `w == x + y + z`. */
  lemma JoinThree(w: string, v: string, x: string, y: string, z: string)
    requires w == x + v && v == y + z
    ensures w == x + y + z
  {
  }

  lemma ScanUpToFirst(t: string, a: string, b: string, pos: nat, p: nat)
    requires |a| > 0 && pos <= |t| && Find(t, a, pos) == Some(p)
    ensures ReplaceScan(t[pos..], a, b) == t[pos..p] + ReplaceScan(t[p..], a, b)
  {
    NoEarlierInSuffix(t, a, pos, p);
    ScanSkip(t[pos..], a, b, p - pos);
    SuffixSlices(t, pos, p);
  }

  /** Before the first occurrence from `pos`, the suffix from `pos` has none either. */
  lemma NoEarlierInSuffix(t: string, a: string, pos: nat, p: nat)
    requires pos <= |t| && Find(t, a, pos) == Some(p)
    ensures p - pos <= |t[pos..]|
    ensures forall k :: 0 <= k < p - pos ==> !OccursAt(t[pos..], a, k)
  {
    FindIsFirst(t, a, pos);
    forall k | 0 <= k < p - pos ensures !OccursAt(t[pos..], a, k) {
      OccursInSuffix(t, a, pos, k);
    }
  }

  /** Cutting the suffix from `pos` at `p - pos` gives `t[pos..p]` and `t[p..]`. */
  lemma SuffixSlices(t: string, pos: nat, p: nat)
    requires pos <= p <= |t|
    ensures t[pos..][..p - pos] == t[pos..p] && t[pos..][p - pos..] == t[p..]
  {
  }

  lemma SpliceAlgebra(t: string, b: string, pos: nat, p: nat, la: nat, whole: string, rest: string)
    requires pos <= p && p + la <= |t|
    requires whole == t[pos..p] + b + rest
    ensures p + |b| <= |t[..p] + b + t[p + la..]|
    ensures (t[..p] + b + t[p + la..])[p + |b|..] == t[p + la..]
    ensures t[..pos] + whole == (t[..p] + b + t[p + la..])[..p + |b|] + rest
  {
    var t' := t[..p] + b + t[p + la..];
    assert t'[..p + |b|] == t[..p] + b;
    assert t'[p + |b|..] == t[p + la..];
    assert t[..pos] + t[pos..p] == t[..p];
  }

  /** With no occurrence left after the cursor, the rest is copied unchanged. */
  lemma ScanRestUnchanged(t: string, a: string, b: string, pos: nat)
    requires |a| > 0 && pos <= |t| && Find(t, a, pos).None?
    ensures ReplaceScan(t[pos..], a, b) == t[pos..]
  {
    FindIsFirst(t, a, pos);
    forall k | 0 <= k ensures !OccursAt(t[pos..], a, k) {
      OccursInSuffix(t, a, pos, k);
    }
    ScanNoOccurrence(t[pos..], a, b);
  }

  lemma ScanAtOccurrence(t: string, a: string, b: string, p: nat)
    requires |a| > 0 && OccursAt(t, a, p)
    ensures ReplaceScan(t[p..], a, b) == b + ReplaceScan(t[p + |a|..], a, b)
  {
    var w := t[p..];
    assert w[..|a|] == a;
    assert w[|a|..] == t[p + |a|..];
  }

  /**
   * `replace_all` (xtream_client.cpp `NormalizeChannelNameForEpg`): find `a`
   * from the cursor, replace it by `b`, continue after the inserted text.
   * Its result is the left-to-right, non-overlapping replacement.
   */
  method ReplaceAll(t: string, a: string, b: string) returns (r: string)
    requires |a| > 0
    ensures r == ReplaceScan(t, a, b)
  {
    r := t;
    var pos: nat := 0;
    while Find(r, a, pos).Some?
      invariant pos <= |r|
      invariant r[..pos] + ReplaceScan(r[pos..], a, b) == ReplaceScan(t, a, b)
      decreases |r| - pos
    {
      var p := Find(r, a, pos).value;
      SpliceKeepsScan(r, a, b, pos, p);
      r := r[..p] + b + r[p + |a|..];
      pos := p + |b|;
    }
    ScanRestUnchanged(r, a, b, pos);
  }

  /** Replacement changes nothing in a text without an occurrence. */
  lemma ReplaceWithoutOccurrence(t: string, a: string, b: string)
    requires |a| > 0 && !Contains(t, a)
    ensures ReplaceScan(t, a, b) == t
  {
    ScanRestUnchanged(t, a, b, 0);
    assert t[0..] == t;
  }

  // ---------------------------------------------------------------------------
  // white-space collapse
  // ---------------------------------------------------------------------------

  /**
   * Every run of white-space bytes becomes one `' '`; `prevSpace` says
   * whether the byte before `s` was white space.
   */
  function Collapse(s: string, prevSpace: bool): string
    decreases |s|
  {
    if s == [] then []
    else if IsSpace(s[0]) then (if prevSpace then [] else [' ']) + Collapse(s[1..], true)
    else [s[0]] + Collapse(s[1..], false)
  }

  /** No two adjacent spaces, and `' '` is the only white space left. */
  predicate Collapsed(r: string) {
    (forall k :: 0 <= k < |r| && IsSpace(r[k]) ==> r[k] == ' ')
    && (forall k :: 0 <= k < |r| - 1 ==> !(r[k] == ' ' && r[k + 1] == ' '))
  }

  lemma {:induction false} CollapseIsCollapsed(s: string, prevSpace: bool)
    ensures Collapsed(Collapse(s, prevSpace))
    ensures prevSpace && Collapse(s, prevSpace) != [] ==> Collapse(s, prevSpace)[0] != ' '
    decreases |s|
  {
    if s != [] {
      CollapseIsCollapsed(s[1..], IsSpace(s[0]));
    }
  }

  /** The collapse loop of `NormalizeChannelNameForEpg` and `SanitizeChannelName`. */
  method CollapseWhitespace(s: string) returns (r: string)
    ensures r == Collapse(s, false)
    ensures Collapsed(r)
  {
    r := [];
    var prevSpace := false;
    var i := 0;
    while i < |s|
      invariant 0 <= i <= |s|
      invariant r + Collapse(s[i..], prevSpace) == Collapse(s, false)
    {
      assert s[i..][1..] == s[i + 1..];
      if IsSpace(s[i]) {
        if !prevSpace {
          r := r + [' '];
        }
        prevSpace := true;
      } else {
        prevSpace := false;
        r := r + [s[i]];
      }
      i := i + 1;
    }
    CollapseIsCollapsed(s, false);
  }

  /** A non-empty sequence is its front followed by its last element. */
  lemma LastSplit<T>(s: seq<T>)
    requires s != []
    ensures s[..|s| - 1] + [s[|s| - 1]] == s
  {
  }

  lemma ConcatAssoc<T>(a: seq<T>, b: seq<T>, c: seq<T>)
    ensures (a + b) + c == a + (b + c)
  {
  }
}

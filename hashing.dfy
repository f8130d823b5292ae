/**
 * `DeterministicHash64` and `HashHex` (addon.cpp): 64-bit FNV-1a over the
 * bytes of a string, printed as sixteen lower-case hex digits. The add-on
 * puts these digests of the password and of the filter texts into its
 * settings signature.
 */
module Hashing {
  import opened Text

  /** The FNV-1a 64-bit offset basis. */
  const FnvOffset: u64 := 14695981039346656037

  /** The FNV-1a 64-bit prime. */
  const FnvPrime: nat := 1099511628211

  /** `h ^ b` for a byte `b`: only the low eight bits of `h` change. */
  function XorByte(h: u64, b: nat): (r: u64)
    requires b < 256
    ensures r / 256 == h / 256
  {
    h - h % 256 + (((h % 256) as bv8) ^ (b as bv8)) as int
  }

  /** One FNV-1a round: xor in the byte, multiply by the prime modulo 2^64. */
  function FnvStep(h: u64, c: char): u64 {
    XorByte(h, ByteOf(c)) * FnvPrime % 0x1_0000_0000_0000_0000
  }

  /** The hash state after the bytes of `s`, starting from `h`. */
  function FnvFrom(h: u64, s: string): u64
    decreases |s|
  {
    if s == [] then h else FnvStep(FnvFrom(h, s[..|s| - 1]), s[|s| - 1])
  }

  /** 64-bit FNV-1a of `s`. */
  function Fnv1a64(s: string): u64 {
    FnvFrom(FnvOffset, s)
  }

  /** `DeterministicHash64`. */
  method DeterministicHash64(s: string) returns (h: u64)
    ensures h == Fnv1a64(s)
  {
    h := FnvOffset;
    var i := 0;
    while i < |s|
      invariant i <= |s| && h == FnvFrom(FnvOffset, s[..i])
    {
      assert s[..i + 1][..i] == s[..i];
      h := XorByte(h, ByteOf(s[i])) * FnvPrime % 0x1_0000_0000_0000_0000;
      i := i + 1;
    }
    assert s[..i] == s;
  }

  /** Hashing `a + b` is hashing `a`, then going on with `b`: the state carries everything. */
  lemma {:induction false} FnvFromAppend(h: u64, a: string, b: string)
    ensures FnvFrom(h, a + b) == FnvFrom(FnvFrom(h, a), b)
    decreases |b|
  {
    if b == [] {
      assert a + b == a;
    } else {
      var n := |b| - 1;
      assert (a + b)[..|a + b| - 1] == a + b[..n];
      FnvFromAppend(h, a, b[..n]);
    }
  }

  // ---------------------------------------------------------------------------
  // HashHex: "%016llx"
  // ---------------------------------------------------------------------------

  /** A lower-case hex digit. */
  function LowerHexDigit(d: nat): (c: char)
    requires d < 16
    ensures HexVal(c) == d
    ensures !('A' <= c <= 'Z')
  {
    if d < 10 then ('0' as int + d) as char else ('a' as int + d - 10) as char
  }

  /** `16^n`. */
  function Pow16(n: nat): (r: nat)
    ensures r > 0
  {
    if n == 0 then 1 else 16 * Pow16(n - 1)
  }

  /** The low `n` hex digits of `v`, most significant first, zero-padded. */
  function HexDigits(v: nat, n: nat): (r: string)
    ensures |r| == n
  {
    if n == 0 then [] else HexDigits(v / 16, n - 1) + [LowerHexDigit(v % 16)]
  }

  /** `HashHex`: the hash printed with `%016llx`. */
  function HashHex(s: string): (r: string)
    ensures |r| == 16
  {
    HexDigits(Fnv1a64(s) as int, 16)
  }

  lemma Pow16Sixteen()
    ensures Pow16(16) == 0x1_0000_0000_0000_0000
  {
    assert Pow16(4) == 0x1_0000;
    assert Pow16(8) == 0x1_0000_0000 by { Pow16Add(4, 4); }
    assert Pow16(16) == 0x1_0000_0000_0000_0000 by { Pow16Add(8, 8); }
  }

  lemma {:induction false} Pow16Add(a: nat, b: nat)
    ensures Pow16(a + b) == Pow16(a) * Pow16(b)
  {
    if b > 0 {
      Pow16Add(a, b - 1);
      assert Pow16(a + b) == 16 * Pow16(a + b - 1);
    }
  }

  /** The value of a string of hex digits, most significant first. */
  function HexValue(s: string): int
    decreases |s|
  {
    if s == [] then 0 else 16 * HexValue(s[..|s| - 1]) + HexVal(s[|s| - 1])
  }

  lemma {:induction false} MulAtLeast(m: nat, k: nat)
    requires k >= 1
    ensures m * k >= m
  {
    if k > 1 {
      MulAtLeast(m, k - 1);
      assert m * k == m * (k - 1) + m;
    }
  }

  /** Quotient and remainder are unique. */
  lemma DivModUnique(v: int, m: int, q: int, r: int)
    requires m > 0 && v == m * q + r && 0 <= r < m
    ensures v % m == r && v / m == q
  {
    var q' := v / m;
    var r' := v % m;
    var k := q - q';
    assert m * k == r' - r by {
      assert m * q' + r' == m * q + r;
      assert m * k == m * q - m * q';
    }
    if k > 0 {
      MulAtLeast(m, k);
      assert false;
    }
  }

  /** Taking one hex digit off: the rest, modulo `16^n`, with the digit put back, is `v` modulo `16^(n+1)`. */
  lemma DivModStep(v: nat, n: nat)
    ensures (v / 16) % Pow16(n) * 16 + v % 16 == v % Pow16(n + 1)
  {
    var q := v / 16;
    var p := Pow16(n);
    var d := v % 16;
    var a := q / p;
    var b := q % p;
    assert v == 16 * q + d;
    assert q == p * a + b;
    assert v == (16 * p) * a + (16 * b + d) by {
      assert 16 * q == 16 * (p * a) + 16 * b;
      assert 16 * (p * a) == (16 * p) * a;
    }
    assert 16 * b + d < 16 * p;
    DivModUnique(v, 16 * p, a, 16 * b + d);
  }

  /** Reading the digits back gives the value modulo `16^n`. */
  lemma {:induction false} HexDigitsRoundTrip(v: nat, n: nat)
    ensures HexValue(HexDigits(v, n)) == v % Pow16(n)
  {
    if n > 0 {
      var r := HexDigits(v, n);
      assert r[..n - 1] == HexDigits(v / 16, n - 1);
      HexDigitsRoundTrip(v / 16, n - 1);
      DivModStep(v, n - 1);
    }
  }

  /** Every digit of `HexDigits` is a lower-case hex digit. */
  lemma {:induction false} HexDigitsLower(v: nat, n: nat, k: nat)
    requires k < n
    ensures 0 <= HexVal(HexDigits(v, n)[k]) && !('A' <= HexDigits(v, n)[k] <= 'Z')
  {
    if k < n - 1 {
      HexDigitsLower(v / 16, n - 1, k);
    }
  }

  /**
   * `HashHex` is sixteen lower-case hex digits that read back as the
   * 64-bit hash: no digit of it is lost.
   */
  lemma HashHexReadsBack(s: string)
    ensures HexValue(HashHex(s)) == Fnv1a64(s) as int
    ensures forall k :: 0 <= k < 16 ==> 0 <= HexVal(HashHex(s)[k]) && !('A' <= HashHex(s)[k] <= 'Z')
  {
    var v := Fnv1a64(s) as int;
    HexDigitsRoundTrip(v, 16);
    Pow16Sixteen();
    DivModUnique(v, 0x1_0000_0000_0000_0000, 0, v);
    forall k | 0 <= k < 16
      ensures 0 <= HexVal(HashHex(s)[k]) && !('A' <= HashHex(s)[k] <= 'Z')
    {
      HexDigitsLower(v, 16, k);
    }
  }

  /** Two texts with different digests have different `HashHex` strings, and conversely. */
  lemma HashHexInjective(a: string, b: string)
    ensures HashHex(a) == HashHex(b) <==> Fnv1a64(a) == Fnv1a64(b)
  {
    HashHexReadsBack(a);
    HashHexReadsBack(b);
  }
}

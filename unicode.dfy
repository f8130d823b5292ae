/**
 * The Unicode arithmetic used by the JSON string decoder of the Xtream
 * client (xtream_client.cpp, `ExtractStringField`): the `appendUtf8` lambda,
 * which writes one code point as UTF-8 (RFC 3629 section 3), and the
 * combination of a UTF-16 surrogate pair into one supplementary code point
 * (RFC 2781 section 2.2).
 *
 * The source writes the byte fields with shifts, masks and `|`; since the
 * fields never overlap, the model writes them as `/`, `%` and `+`.
 */
module Unicode {
  import opened Text

  predicate IsSurrogate(cp: nat) { 0xD800 <= cp <= 0xDFFF }

  predicate IsHighSurrogate(cu: nat) { 0xD800 <= cu <= 0xDBFF }

  predicate IsLowSurrogate(cu: nat) { 0xDC00 <= cu <= 0xDFFF }

  /** A Unicode scalar value: a code point that is not a surrogate. */
  predicate IsScalar(cp: nat) { cp <= 0x10FFFF && !IsSurrogate(cp) }

  /** `appendUtf8`: one code point as 1 to 4 bytes. */
  function Utf8(cp: nat): (r: seq<char>)
    requires cp <= 0x10FFFF
    ensures 1 <= |r| <= 4
    ensures forall k :: 0 <= k < |r| ==> r[k] as int < 256
  {
    if cp <= 0x7F then
      [cp as char]
    else if cp <= 0x7FF then
      [(0xC0 + (cp / 64) % 32) as char, (0x80 + cp % 64) as char]
    else if cp <= 0xFFFF then
      [(0xE0 + (cp / 4096) % 16) as char, (0x80 + (cp / 64) % 64) as char, (0x80 + cp % 64) as char]
    else
      [(0xF0 + (cp / 262144) % 8) as char, (0x80 + (cp / 4096) % 64) as char,
       (0x80 + (cp / 64) % 64) as char, (0x80 + cp % 64) as char]
  }

  predicate IsContinuation(b: char) { 0x80 <= b as int < 0xC0 }

  /**
   * A reference decoder for one well-formed UTF-8 sequence (RFC 3629
   * section 4): the lead byte fixes the length, continuation bytes carry six
   * bits each, overlong forms and surrogates are refused.
   */
  function DecodeUtf8(b: seq<char>): Option<nat> {
    if |b| == 1 && b[0] as int < 0x80 then
      Some(b[0] as int)
    else if |b| == 2 && 0xC2 <= b[0] as int < 0xE0 && IsContinuation(b[1]) then
      Some((b[0] as int - 0xC0) * 64 + (b[1] as int - 0x80))
    else if |b| == 3 && 0xE0 <= b[0] as int < 0xF0 && IsContinuation(b[1]) && IsContinuation(b[2]) then
      var v := (b[0] as int - 0xE0) * 4096 + (b[1] as int - 0x80) * 64 + (b[2] as int - 0x80);
      if v < 0x800 || IsSurrogate(v) then None else Some(v)
    else if |b| == 4 && 0xF0 <= b[0] as int < 0xF5 && IsContinuation(b[1]) && IsContinuation(b[2])
            && IsContinuation(b[3]) then
      var v := (b[0] as int - 0xF0) * 262144 + (b[1] as int - 0x80) * 4096
               + (b[2] as int - 0x80) * 64 + (b[3] as int - 0x80);
      if v < 0x10000 || v > 0x10FFFF then None else Some(v)
    else
      None
  }

  /**
   * Every scalar value is written in the shortest form, and the reference
   * decoder reads it back.
   */
  lemma Utf8RoundTrip(cp: nat)
    requires IsScalar(cp)
    ensures DecodeUtf8(Utf8(cp)) == Some(cp)
    ensures |Utf8(cp)| == (if cp < 0x80 then 1 else if cp < 0x800 then 2 else if cp < 0x10000 then 3 else 4)
  {
    if cp <= 0x7F {
    } else if cp <= 0x7FF {
      TwoByteForm(cp);
    } else if cp <= 0xFFFF {
      ThreeByteForm(cp);
    } else {
      FourByteForm(cp);
    }
  }

  lemma TwoByteForm(cp: nat)
    requires 0x80 <= cp <= 0x7FF
    ensures DecodeUtf8(Utf8(cp)) == Some(cp) && |Utf8(cp)| == 2
  {
    var hi, lo := cp / 64, cp % 64;
    assert cp == hi * 64 + lo;
    assert hi % 32 == hi && 2 <= hi < 32;
    var r := Utf8(cp);
    assert r[0] as int == 0xC0 + hi && r[1] as int == 0x80 + lo;
  }

  lemma ThreeByteForm(cp: nat)
    requires 0x800 <= cp <= 0xFFFF && !IsSurrogate(cp)
    ensures DecodeUtf8(Utf8(cp)) == Some(cp) && |Utf8(cp)| == 3
  {
    var a, b, c := cp / 4096, (cp / 64) % 64, cp % 64;
    assert cp / 64 == a * 64 + b;
    assert cp == a * 4096 + b * 64 + c;
    assert a % 16 == a;
    var r := Utf8(cp);
    assert r[0] as int == 0xE0 + a && r[1] as int == 0x80 + b && r[2] as int == 0x80 + c;
  }

  lemma FourByteForm(cp: nat)
    requires 0x10000 <= cp <= 0x10FFFF
    ensures DecodeUtf8(Utf8(cp)) == Some(cp) && |Utf8(cp)| == 4
  {
    var a, b, c, d := cp / 262144, (cp / 4096) % 64, (cp / 64) % 64, cp % 64;
    assert cp / 4096 == a * 64 + b;
    assert cp / 64 == (cp / 4096) * 64 + c;
    assert cp == a * 262144 + b * 4096 + c * 64 + d;
    assert a % 8 == a && a <= 4;
    var r := Utf8(cp);
    assert r[0] as int == 0xF0 + a && r[1] as int == 0x80 + b && r[2] as int == 0x80 + c
      && r[3] as int == 0x80 + d;
  }

  /** The code point a high/low surrogate pair stands for. */
  function CombineSurrogates(hi: nat, lo: nat): (cp: nat)
    requires IsHighSurrogate(hi) && IsLowSurrogate(lo)
    ensures 0x10000 <= cp <= 0x10FFFF
  {
    0x10000 + (hi - 0xD800) * 1024 + (lo - 0xDC00)
  }

  function HighSurrogate(cp: nat): nat
    requires 0x10000 <= cp <= 0x10FFFF
  {
    0xD800 + (cp - 0x10000) / 1024
  }

  function LowSurrogate(cp: nat): nat
    requires 0x10000 <= cp <= 0x10FFFF
  {
    0xDC00 + (cp - 0x10000) % 1024
  }

  /**
   * Surrogate pairs and supplementary code points correspond one to one:
   * splitting a code point and combining the halves gives it back, and
   * combining a pair and splitting the result gives the pair back.
   */
  lemma SurrogatePairBijection(cp: nat, hi: nat, lo: nat)
    requires 0x10000 <= cp <= 0x10FFFF
    requires IsHighSurrogate(hi) && IsLowSurrogate(lo)
    ensures IsHighSurrogate(HighSurrogate(cp)) && IsLowSurrogate(LowSurrogate(cp))
    ensures CombineSurrogates(HighSurrogate(cp), LowSurrogate(cp)) == cp
    ensures HighSurrogate(CombineSurrogates(hi, lo)) == hi
    ensures LowSurrogate(CombineSurrogates(hi, lo)) == lo
  {
    var d := cp - 0x10000;
    assert d == (d / 1024) * 1024 + d % 1024;
    var e := (hi - 0xD800) * 1024 + (lo - 0xDC00);
    assert e / 1024 == hi - 0xD800 && e % 1024 == lo - 0xDC00;
  }
}

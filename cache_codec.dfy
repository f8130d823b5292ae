/**
 * The channel cache of addon.cpp: the little-endian integer primitives
 * that move a read cursor, the `SaveCache` encoder, and the
 * `TryLoadCacheForSignature` decoder with the channel list, uid map and
 * channel groups it derives.
 *
 * A blob is a `string` whose characters stand for its bytes; every byte
 * read goes through `ByteOf`, the `unsigned char` cast of the source.
 */
module CacheCodec {
  import opened Text
  import opened Catalog
  import opened Snapshots

  /** `kCacheMagic`: the bytes `XTC1` read as a little-endian `uint32_t`. */
  const CacheMagic: u32 := 0x31435458

  function Pow256(n: nat): (r: nat)
    ensures r >= 1
  {
    if n == 0 then 1 else 256 * Pow256(n - 1)
  }

  // ---------------------------------------------------------------------------
  // Little-endian bytes
  // ---------------------------------------------------------------------------

  /** The low `n` bytes of `v`, least significant first: byte `i` is `(v >> 8i) & 0xFF`. */
  function LeBytes(v: nat, n: nat): (r: string)
    ensures |r| == n
  {
    if n == 0 then [] else [(v % 256) as char] + LeBytes(v / 256, n - 1)
  }

  /** The number whose little-endian bytes are `s`. */
  function LeValue(s: string): (r: nat)
    ensures r < Pow256(|s|)
  {
    if s == [] then 0 else ByteOf(s[0]) + 256 * LeValue(s[1..])
  }

  /** Reading back `n` written bytes gives the value, when it fits in them. */
  lemma {:induction false} LeRoundTrip(v: nat, n: nat)
    requires v < Pow256(n)
    ensures LeValue(LeBytes(v, n)) == v
  {
    if n > 0 {
      LeRoundTrip(v / 256, n - 1);
      assert LeBytes(v, n)[1..] == LeBytes(v / 256, n - 1);
    }
  }

  /** Writing byte `i` after bytes `0..i`. */
  lemma {:induction false} LeBytesSnoc(v: nat, i: nat)
    ensures LeBytes(v, i + 1) == LeBytes(v, i) + [((v / Pow256(i)) % 256) as char]
  {
    if i > 0 {
      LeBytesSnoc(v / 256, i - 1);
      DivDiv(v, i);
    }
  }

  lemma DivDiv(v: nat, i: nat)
    requires i > 0
    ensures v / 256 / Pow256(i - 1) == v / Pow256(i)
  {
    var p := Pow256(i - 1);
    var d := Pow256(i);
    assert d == 256 * p;
    var w := v / 256;
    var q := w / p;
    var r := 256 * (w % p) + v % 256;
    assert w == p * q + w % p;
    assert v == 256 * w + v % 256;
    assert v == 256 * (p * q) + r;
    assert 256 * (p * q) == d * q;
    assert r < d by {
      assert w % p <= p - 1;
      assert 256 * (w % p) <= 256 * p - 256;
    }
    DivUnique(v, d, q, r);
  }

  lemma DivUnique(v: int, d: int, q: int, r: int)
    requires d > 0 && 0 <= r < d && v == d * q + r
    ensures v / d == q
  {
    var q' := v / d;
    assert d * q' <= v < d * (q + 1);
    assert d * q <= v < d * (q' + 1);
    LessByFactor(d, q', q + 1);
    LessByFactor(d, q, q' + 1);
  }

  lemma LessByFactor(d: int, a: int, b: int)
    requires d > 0 && d * a < d * b
    ensures a < b
  {
    assert d * (b - a) > 0;
  }

  /** Reading byte `i` after bytes `0..i`: `v |= byte << 8i`, the bits being disjoint. */
  lemma {:induction false} LeValueSnoc(s: string, c: char)
    ensures LeValue(s + [c]) == LeValue(s) + ByteOf(c) * Pow256(|s|)
  {
    if s == [] {
      assert ([] + [c])[1..] == [];
    } else {
      var t := s[1..];
      LeValueSnoc(t, c);
      assert (s + [c])[0] == s[0];
      assert (s + [c])[1..] == t + [c];
      var p := Pow256(|t|);
      assert LeValue(s + [c]) == ByteOf(s[0]) + 256 * (LeValue(t) + ByteOf(c) * p);
      assert Pow256(|s|) == 256 * p;
      MulSwap(ByteOf(c), p);
    }
  }

  lemma MulSwap(b: int, p: int)
    ensures 256 * (b * p) == b * (256 * p)
  {
  }

  // ---------------------------------------------------------------------------
  // Reads
  // ---------------------------------------------------------------------------

  /** A value read from the front of a byte string, and the bytes after it. */
  datatype Took<T> = Took(value: T, rest: string)

  /** A `uint32_t` from the first 4 bytes: `None` when fewer remain. */
  function TakeU32(s: string): (r: Option<Took<u32>>)
    ensures r.Some? <==> |s| >= 4
    ensures r.Some? ==> r.value.rest == s[4..]
  {
    if |s| < 4 then None
    else
      var v := LeValue(s[..4]);
      assert Pow256(4) == 0x1_0000_0000;
      Some(Took(v, s[4..]))
  }

  /** An `int32_t`: the `uint32_t` cast to `int32_t`. */
  function TakeI32(s: string): (r: Option<Took<i32>>)
    ensures r.Some? <==> |s| >= 4
    ensures r.Some? ==> r.value.rest == s[4..]
  {
    match TakeU32(s)
    case None => None
    case Some(u) => Some(Took(WrapInt32(u.value), u.rest))
  }

  /** A `uint64_t` from the first 8 bytes. */
  function TakeU64(s: string): (r: Option<Took<u64>>)
    ensures r.Some? <==> |s| >= 8
    ensures r.Some? ==> r.value.rest == s[8..]
  {
    if |s| < 8 then None
    else
      var v := LeValue(s[..8]);
      assert Pow256(8) == 0x1_0000_0000_0000_0000;
      Some(Took(v, s[8..]))
  }

  /** `len` raw bytes: `None` when fewer remain. */
  function TakeBytes(s: string, len: nat): (r: Option<Took<string>>)
    ensures r.Some? <==> len <= |s|
    ensures r.Some? ==> |r.value.value| == len && r.value.value + r.value.rest == s
  {
    if len > |s| then None else Some(Took(s[..len], s[len..]))
  }

  /** `ReadU32` at `off`: on success the cursor moves by 4; on failure it stays. */
  method ReadU32(b: string, off: nat) returns (ok: bool, next: nat, v: u32)
    ensures ok <==> off + 4 <= |b|
    ensures ok ==> next == off + 4 && TakeU32(b[off..]) == Some(Took(v, b[next..]))
    ensures !ok ==> next == off
  {
    if off + 4 > |b| {
      return false, off, 0;
    }
    var x := ByteOf(b[off]) + ByteOf(b[off + 1]) * 0x100 + ByteOf(b[off + 2]) * 0x1_0000 + ByteOf(b[off + 3]) * 0x100_0000;
    assert x == LeValue(b[off..off + 4]) by {
      var s0, s1, s2, s3 := b[off..off + 4], b[off + 1..off + 4], b[off + 2..off + 4], b[off + 3..off + 4];
      assert s3[1..] == [] && s2[1..] == s3 && s1[1..] == s2 && s0[1..] == s1;
      assert LeValue(s3) == ByteOf(b[off + 3]);
      assert LeValue(s2) == ByteOf(b[off + 2]) + 256 * LeValue(s3);
      assert LeValue(s1) == ByteOf(b[off + 1]) + 256 * LeValue(s2);
      assert LeValue(s0) == ByteOf(b[off]) + 256 * LeValue(s1);
    }
    assert b[off..][..4] == b[off..off + 4] && b[off..][4..] == b[off + 4..];
    return true, off + 4, x;
  }

  /** `ReadI32`: `ReadU32` and the cast to `int32_t`. */
  method ReadI32(b: string, off: nat) returns (ok: bool, next: nat, v: i32)
    ensures ok <==> off + 4 <= |b|
    ensures ok ==> next == off + 4 && TakeI32(b[off..]) == Some(Took(v, b[next..]))
    ensures !ok ==> next == off
  {
    var u: u32;
    ok, next, u := ReadU32(b, off);
    v := if ok then WrapInt32(u) else 0;
  }

  /** `ReadU64`: eight bytes OR-ed in at shifts 0, 8, ..., 56. */
  method ReadU64(b: string, off: nat) returns (ok: bool, next: nat, v: u64)
    ensures ok <==> off + 8 <= |b|
    ensures ok ==> next == off + 8 && TakeU64(b[off..]) == Some(Took(v, b[next..]))
    ensures !ok ==> next == off
  {
    if off + 8 > |b| {
      return false, off, 0;
    }
    var x: nat := 0;
    var i := 0;
    while i < 8
      invariant 0 <= i <= 8
      invariant x == LeValue(b[off..off + i])
    {
      assert b[off..off + i + 1] == b[off..off + i] + [b[off + i]];
      LeValueSnoc(b[off..off + i], b[off + i]);
      x := x + ByteOf(b[off + i]) * Pow256(i);
      i := i + 1;
    }
    assert Pow256(8) == 0x1_0000_0000_0000_0000;
    assert b[off..][..8] == b[off..off + 8] && b[off..][8..] == b[off + 8..];
    return true, off + 8, x;
  }

  // ---------------------------------------------------------------------------
  // Appends
  // ---------------------------------------------------------------------------

  /** `AppendU32`: four bytes, least significant first. */
  method AppendU32(out: string, v: u32) returns (r: string)
    ensures r == out + LeBytes(v, 4)
  {
    r := out + [(v % 0x100) as char];
    r := r + [((v / 0x100) % 0x100) as char];
    r := r + [((v / 0x1_0000) % 0x100) as char];
    r := r + [((v / 0x100_0000) % 0x100) as char];
    LeBytesSnoc(v, 0);
    LeBytesSnoc(v, 1);
    LeBytesSnoc(v, 2);
    LeBytesSnoc(v, 3);
  }

  /** `AppendI32`: the `int32_t` cast to `uint32_t`, then `AppendU32`. */
  method AppendI32(out: string, v: i32) returns (r: string)
    ensures r == out + LeBytes(U32Of(v), 4)
  {
    r := AppendU32(out, U32Of(v));
  }

  /** `AppendU64`: eight bytes, least significant first. */
  method AppendU64(out: string, v: u64) returns (r: string)
    ensures r == out + LeBytes(v, 8)
  {
    r := out;
    var i := 0;
    while i < 8
      invariant 0 <= i <= 8
      invariant r == out + LeBytes(v, i)
    {
      LeBytesSnoc(v, i);
      r := r + [((v / Pow256(i)) % 256) as char];
      i := i + 1;
    }
  }

  // ---------------------------------------------------------------------------
  // Each field reads back what was appended
  // ---------------------------------------------------------------------------

  lemma TakeU32Of(v: u32, rest: string)
    ensures TakeU32(LeBytes(v, 4) + rest) == Some(Took(v, rest))
  {
    var s := LeBytes(v, 4) + rest;
    assert s[..4] == LeBytes(v, 4) && s[4..] == rest;
    assert Pow256(4) == 0x1_0000_0000;
    LeRoundTrip(v, 4);
  }

  /** A length field reads back the length, which fits in 32 bits. */
  lemma TakeLengthOf(n: nat, rest: string)
    requires n < 0x1_0000_0000
    ensures TakeU32(LeBytes(U32Of(n), 4) + rest) == Some(Took(n, rest))
  {
    assert U32Of(n) == n;
    TakeU32Of(n, rest);
  }

  lemma TakeI32Of(v: i32, rest: string)
    ensures TakeI32(LeBytes(U32Of(v), 4) + rest) == Some(Took(v, rest))
  {
    TakeU32Of(U32Of(v), rest);
    WrapOfU32(v);
  }

  lemma TakeU64Of(v: u64, rest: string)
    ensures TakeU64(LeBytes(v, 8) + rest) == Some(Took(v, rest))
  {
    var s := LeBytes(v, 8) + rest;
    assert s[..8] == LeBytes(v, 8) && s[8..] == rest;
    assert Pow256(8) == 0x1_0000_0000_0000_0000;
    LeRoundTrip(v, 8);
  }

  lemma TakeBytesOf(x: string, rest: string)
    ensures TakeBytes(x + rest, |x|) == Some(Took(x, rest))
  {
    assert (x + rest)[..|x|] == x && (x + rest)[|x|..] == rest;
  }

  // ---------------------------------------------------------------------------
  // The blob layout
  // ---------------------------------------------------------------------------

  /** A category record of the cache. */
  datatype CacheCategory = CacheCategory(id: i32, name: string)

  /** `CacheChannel`. */
  datatype CacheChannel = CacheChannel(uid: u32, categoryId: i32, channelNumber: u32, name: string)

  /** What a blob holds after its signature. */
  datatype CacheContents = CacheContents(timestamp: u64, categories: seq<CacheCategory>, channels: seq<CacheChannel>)

  /** One category record: id, name length, name. */
  function EncodeCategory(c: CacheCategory): string {
    LeBytes(U32Of(c.id), 4) + (LeBytes(U32Of(|c.name|), 4) + c.name)
  }

  function EncodeCategories(cs: seq<CacheCategory>): string
    decreases |cs|
  {
    if cs == [] then [] else EncodeCategories(cs[..|cs| - 1]) + EncodeCategory(cs[|cs| - 1])
  }

  /** One channel record: uid, category id, channel number, name length, name. */
  function EncodeChannel(c: CacheChannel): string {
    LeBytes(c.uid, 4) + (LeBytes(U32Of(c.categoryId), 4) + (LeBytes(c.channelNumber, 4) + (LeBytes(U32Of(|c.name|), 4) + c.name)))
  }

  function EncodeChannels(cs: seq<CacheChannel>): string
    decreases |cs|
  {
    if cs == [] then [] else EncodeChannels(cs[..|cs| - 1]) + EncodeChannel(cs[|cs| - 1])
  }

  /** The categories `SaveCache` writes: those with a positive id and a name, in order. */
  function CacheCategories(categories: seq<LiveCategory>): (r: seq<CacheCategory>)
    ensures |r| <= |categories|
    decreases |categories|
  {
    if categories == [] then []
    else
      var c := categories[|categories| - 1];
      CacheCategories(categories[..|categories| - 1]) +
        (if c.id > 0 && c.name != [] then [CacheCategory(WrapInt32(c.id), c.name)] else [])
  }

  /** Magic, signature length, signature, timestamp. */
  function EncodeHeader(signature: string, ts: u64): string {
    LeBytes(CacheMagic, 4) + (LeBytes(U32Of(|signature|), 4) + (signature + LeBytes(ts, 8)))
  }

  /** Category count, categories, channel count, channels. */
  function EncodeBody(cats: seq<CacheCategory>, channels: seq<CacheChannel>): string {
    LeBytes(U32Of(|cats|), 4) + (EncodeCategories(cats) + (LeBytes(U32Of(|channels|), 4) + EncodeChannels(channels)))
  }

  /** The blob `SaveCache` writes, given the clock reading `ts`. */
  function EncodeCache(signature: string, ts: u64, categories: seq<LiveCategory>, channels: seq<CacheChannel>): string {
    EncodeHeader(signature, ts) + EncodeBody(CacheCategories(categories), channels)
  }

  /** One category record from the front of `s`. */
  function TakeCategory(s: string): (r: Option<Took<CacheCategory>>)
    ensures r.Some? ==> |r.value.rest| < |s|
  {
    var id := TakeI32(s);
    if id.None? then None
    else
      var len := TakeU32(id.value.rest);
      if len.None? then None
      else
        var name := TakeBytes(len.value.rest, len.value.value);
        if name.None? then None
        else Some(Took(CacheCategory(id.value.value, name.value.value), name.value.rest))
  }

  /** `n` category records: `None` as soon as one runs past the end. */
  function TakeCategories(s: string, n: nat): (r: Option<Took<seq<CacheCategory>>>)
    ensures r.Some? ==> |r.value.value| == n
    decreases n
  {
    if n == 0 then Some(Took([], s))
    else
      var prev := TakeCategories(s, n - 1);
      if prev.None? then None
      else
        var c := TakeCategory(prev.value.rest);
        if c.None? then None
        else Some(Took(prev.value.value + [c.value.value], c.value.rest))
  }

  /** One channel record from the front of `s`. */
  function TakeChannel(s: string): (r: Option<Took<CacheChannel>>)
    ensures r.Some? ==> |r.value.rest| < |s|
  {
    var uid := TakeU32(s);
    if uid.None? then None
    else
      var cat := TakeI32(uid.value.rest);
      if cat.None? then None
      else
        var num := TakeU32(cat.value.rest);
        if num.None? then None
        else
          var len := TakeU32(num.value.rest);
          if len.None? then None
          else
            var name := TakeBytes(len.value.rest, len.value.value);
            if name.None? then None
            else Some(Took(CacheChannel(uid.value.value, cat.value.value, num.value.value, name.value.value), name.value.rest))
  }

  /** `n` channel records. */
  function TakeChannels(s: string, n: nat): (r: Option<Took<seq<CacheChannel>>>)
    ensures r.Some? ==> |r.value.value| == n
    decreases n
  {
    if n == 0 then Some(Took([], s))
    else
      var prev := TakeChannels(s, n - 1);
      if prev.None? then None
      else
        var c := TakeChannel(prev.value.rest);
        if c.None? then None
        else Some(Took(prev.value.value + [c.value.value], c.value.rest))
  }

  /**
   * The header checks of `TryLoadCacheForSignature`: the magic, then the
   * signature, which must be exactly the expected one; the result is the
   * timestamp and what follows it.
   */
  function DecodeHeader(b: string, signature: string): (r: Option<Took<u64>>)
  {
    var magic := TakeU32(b);
    if magic.None? || magic.value.value != CacheMagic then None
    else
      var sigLen := TakeU32(magic.value.rest);
      if sigLen.None? then None
      else
        var sig := TakeBytes(sigLen.value.rest, sigLen.value.value);
        if sig.None? || sig.value.value != signature then None
        else TakeU64(sig.value.rest)
  }

  /** The category count and categories, then the channel count and channels. */
  function DecodeBody(s: string): (r: Option<Took<(seq<CacheCategory>, seq<CacheChannel>)>>)
  {
    var catCount := TakeU32(s);
    if catCount.None? then None
    else
      var cats := TakeCategories(catCount.value.rest, catCount.value.value);
      if cats.None? then None
      else
        var chCount := TakeU32(cats.value.rest);
        if chCount.None? then None
        else
          var chans := TakeChannels(chCount.value.rest, chCount.value.value);
          if chans.None? then None
          else Some(Took((cats.value.value, chans.value.value), chans.value.rest))
  }

  /**
   * The reading half of `TryLoadCacheForSignature`: every field is read
   * only if the previous one was, and bytes after the last channel are
   * ignored.
   */
  function DecodeCache(b: string, signature: string): (r: Option<CacheContents>)
  {
    var header := DecodeHeader(b, signature);
    if header.None? then None
    else
      var body := DecodeBody(header.value.rest);
      if body.None? then None
      else Some(CacheContents(header.value.value, body.value.value.0, body.value.value.1))
  }

  // ---------------------------------------------------------------------------
  // Round trip
  // ---------------------------------------------------------------------------

  const Limit32: int := 0x1_0000_0000

  lemma CategoryRoundTrip(c: CacheCategory, rest: string)
    requires |c.name| < Limit32
    ensures TakeCategory(EncodeCategory(c) + rest) == Some(Took(c, rest))
  {
    var x, y := LeBytes(U32Of(c.id), 4), LeBytes(U32Of(|c.name|), 4);
    assert EncodeCategory(c) + rest == x + (y + (c.name + rest));
    TakeI32Of(c.id, y + (c.name + rest));
    TakeLengthOf(|c.name|, c.name + rest);
    TakeBytesOf(c.name, rest);
  }

  lemma {:induction false} CategoriesRoundTrip(cs: seq<CacheCategory>, rest: string)
    requires forall c :: c in cs ==> |c.name| < Limit32
    ensures TakeCategories(EncodeCategories(cs) + rest, |cs|) == Some(Took(cs, rest))
    decreases |cs|
  {
    if cs != [] {
      var init, last := cs[..|cs| - 1], cs[|cs| - 1];
      var mid := EncodeCategory(last) + rest;
      var s := EncodeCategories(cs) + rest;
      assert TakeCategories(s, |init|) == Some(Took(init, mid)) && TakeCategory(mid) == Some(Took(last, rest)) by {
        assert s == EncodeCategories(init) + mid;
        CategoriesRoundTrip(init, mid);
        CategoryRoundTrip(last, rest);
      }
      TakeCategoriesSnoc(s, init, mid, last, rest);
      LastSplit(cs);
    } else {
      assert EncodeCategories(cs) + rest == rest;
    }
  }

  lemma TakeCategoriesSnoc(s: string, init: seq<CacheCategory>, mid: string, last: CacheCategory, rest: string)
    requires TakeCategories(s, |init|) == Some(Took(init, mid))
    requires TakeCategory(mid) == Some(Took(last, rest))
    ensures TakeCategories(s, |init| + 1) == Some(Took(init + [last], rest))
  {
  }

  lemma ChannelRoundTrip(c: CacheChannel, rest: string)
    requires |c.name| < Limit32
    ensures TakeChannel(EncodeChannel(c) + rest) == Some(Took(c, rest))
  {
    var w, x, y, z := LeBytes(c.uid, 4), LeBytes(U32Of(c.categoryId), 4), LeBytes(c.channelNumber, 4), LeBytes(U32Of(|c.name|), 4);
    assert EncodeChannel(c) + rest == w + (x + (y + (z + (c.name + rest))));
    TakeU32Of(c.uid, x + (y + (z + (c.name + rest))));
    TakeI32Of(c.categoryId, y + (z + (c.name + rest)));
    TakeU32Of(c.channelNumber, z + (c.name + rest));
    TakeLengthOf(|c.name|, c.name + rest);
    TakeBytesOf(c.name, rest);
  }

  lemma {:induction false} ChannelsRoundTrip(cs: seq<CacheChannel>, rest: string)
    requires forall c :: c in cs ==> |c.name| < Limit32
    ensures TakeChannels(EncodeChannels(cs) + rest, |cs|) == Some(Took(cs, rest))
    decreases |cs|
  {
    if cs != [] {
      var init, last := cs[..|cs| - 1], cs[|cs| - 1];
      var mid := EncodeChannel(last) + rest;
      var s := EncodeChannels(cs) + rest;
      assert TakeChannels(s, |init|) == Some(Took(init, mid)) && TakeChannel(mid) == Some(Took(last, rest)) by {
        assert s == EncodeChannels(init) + mid;
        ChannelsRoundTrip(init, mid);
        ChannelRoundTrip(last, rest);
      }
      TakeChannelsSnoc(s, init, mid, last, rest);
      LastSplit(cs);
    } else {
      assert EncodeChannels(cs) + rest == rest;
    }
  }

  lemma TakeChannelsSnoc(s: string, init: seq<CacheChannel>, mid: string, last: CacheChannel, rest: string)
    requires TakeChannels(s, |init|) == Some(Took(init, mid))
    requires TakeChannel(mid) == Some(Took(last, rest))
    ensures TakeChannels(s, |init| + 1) == Some(Took(init + [last], rest))
  {
  }

  lemma HeaderRoundTrip(signature: string, ts: u64, rest: string)
    requires |signature| < Limit32
    ensures DecodeHeader(EncodeHeader(signature, ts) + rest, signature) == Some(Took(ts, rest))
  {
    var m, l, t := LeBytes(CacheMagic, 4), LeBytes(U32Of(|signature|), 4), LeBytes(ts, 8);
    assert EncodeHeader(signature, ts) + rest == m + (l + (signature + (t + rest)));
    TakeU32Of(CacheMagic, l + (signature + (t + rest)));
    TakeLengthOf(|signature|, signature + (t + rest));
    TakeBytesOf(signature, t + rest);
    TakeU64Of(ts, rest);
  }

  lemma BodyRoundTrip(cats: seq<CacheCategory>, channels: seq<CacheChannel>, rest: string)
    requires |cats| < Limit32 && |channels| < Limit32
    requires forall c :: c in cats ==> |c.name| < Limit32
    requires forall c :: c in channels ==> |c.name| < Limit32
    ensures DecodeBody(EncodeBody(cats, channels) + rest) == Some(Took((cats, channels), rest))
  {
    var x, y, z, w := LeBytes(U32Of(|cats|), 4), EncodeCategories(cats), LeBytes(U32Of(|channels|), 4), EncodeChannels(channels);
    assert EncodeBody(cats, channels) + rest == x + (y + (z + (w + rest)));
    TakeLengthOf(|cats|, y + (z + (w + rest)));
    CategoriesRoundTrip(cats, z + (w + rest));
    TakeLengthOf(|channels|, w + rest);
    ChannelsRoundTrip(channels, rest);
  }

  /** What `SaveCache` can write so that every length field holds its length. */
  predicate Encodable(signature: string, categories: seq<LiveCategory>, channels: seq<CacheChannel>) {
    |signature| < Limit32 && |categories| < Limit32 && |channels| < Limit32 &&
    (forall c :: c in categories ==> |c.name| < Limit32) &&
    (forall c :: c in channels ==> |c.name| < Limit32)
  }

  /**
   * Decoding what `SaveCache` wrote, with the same signature, gives back
   * its timestamp, its categories and all its channels, in write order,
   * whatever bytes follow.
   */
  lemma CacheRoundTrip(signature: string, ts: u64, categories: seq<LiveCategory>, channels: seq<CacheChannel>, trailing: string)
    requires Encodable(signature, categories, channels)
    ensures DecodeCache(EncodeCache(signature, ts, categories, channels) + trailing, signature) ==
            Some(CacheContents(ts, CacheCategories(categories), channels))
  {
    var cats := CacheCategories(categories);
    forall c | c in cats ensures |c.name| < Limit32 {
      CacheCategoryNames(categories, c);
    }
    var h, body := EncodeHeader(signature, ts), EncodeBody(cats, channels);
    assert EncodeCache(signature, ts, categories, channels) + trailing == h + (body + trailing);
    HeaderRoundTrip(signature, ts, body + trailing);
    BodyRoundTrip(cats, channels, trailing);
  }

  /** Every category written carries the name of one of the live categories. */
  lemma {:induction false} CacheCategoryNames(categories: seq<LiveCategory>, c: CacheCategory)
    requires c in CacheCategories(categories)
    ensures exists k :: 0 <= k < |categories| && categories[k].name == c.name
    decreases |categories|
  {
    var n := |categories|;
    var init := categories[..n - 1];
    if c in CacheCategories(init) {
      CacheCategoryNames(init, c);
      var k :| 0 <= k < |init| && init[k].name == c.name;
      assert categories[k] == init[k];
    } else {
      assert categories[n - 1].name == c.name;
    }
  }

  // ---------------------------------------------------------------------------
  // Rejection
  // ---------------------------------------------------------------------------

  /**
   * A blob is accepted only if it starts with the magic, then a length
   * equal to the expected signature's, then that signature.
   */
  lemma AcceptedHeader(b: string, signature: string)
    requires DecodeCache(b, signature).Some?
    ensures |b| >= 16 + |signature|
    ensures LeValue(b[..4]) == CacheMagic && LeValue(b[4..8]) == |signature|
    ensures b[8..8 + |signature|] == signature
  {
    var s := b[4..];
    assert s[..4] == b[4..8];
    var t := s[4..];
    assert t == b[8..];
    assert t[..|signature|] == b[8..8 + |signature|];
  }

  /** A header written for one signature is refused when another is expected. */
  lemma WrongSignatureRejected(written: string, expected: string, ts: u64, rest: string)
    requires |written| < Limit32 && written != expected
    ensures DecodeHeader(EncodeHeader(written, ts) + rest, expected) == None
  {
    var m, l, t := LeBytes(CacheMagic, 4), LeBytes(U32Of(|written|), 4), LeBytes(ts, 8);
    assert EncodeHeader(written, ts) + rest == m + (l + (written + (t + rest)));
    TakeU32Of(CacheMagic, l + (written + (t + rest)));
    TakeLengthOf(|written|, written + (t + rest));
    TakeBytesOf(written, t + rest);
  }

  /** So a whole cache written for one signature is never loaded for another. */
  lemma WrongSignatureCacheRejected(written: string, expected: string, ts: u64,
                                    categories: seq<LiveCategory>, channels: seq<CacheChannel>, trailing: string)
    requires |written| < Limit32 && written != expected
    ensures DecodeCache(EncodeCache(written, ts, categories, channels) + trailing, expected) == None
  {
    var header := EncodeHeader(written, ts);
    var body := EncodeBody(CacheCategories(categories), channels);
    ConcatAssoc(header, body, trailing);
    WrongSignatureRejected(written, expected, ts, body + trailing);
    NoHeaderNoCache(header + (body + trailing), expected);
  }

  lemma NoHeaderNoCache(b: string, signature: string)
    requires DecodeHeader(b, signature) == None
    ensures DecodeCache(b, signature) == None
  {
  }

  // Each reader, given more bytes after what it reads, reads the same value.

  lemma TakeU32Extend(s: string, q: string)
    requires TakeU32(s).Some?
    ensures TakeU32(s + q) == Some(Took(TakeU32(s).value.value, TakeU32(s).value.rest + q))
  {
    assert (s + q)[..4] == s[..4] && (s + q)[4..] == s[4..] + q;
  }

  lemma TakeU64Extend(s: string, q: string)
    requires TakeU64(s).Some?
    ensures TakeU64(s + q) == Some(Took(TakeU64(s).value.value, TakeU64(s).value.rest + q))
  {
    assert (s + q)[..8] == s[..8] && (s + q)[8..] == s[8..] + q;
  }

  lemma TakeBytesExtend(s: string, len: nat, q: string)
    requires TakeBytes(s, len).Some?
    ensures TakeBytes(s + q, len) == Some(Took(TakeBytes(s, len).value.value, TakeBytes(s, len).value.rest + q))
  {
    assert (s + q)[..len] == s[..len] && (s + q)[len..] == s[len..] + q;
  }

  lemma TakeCategoryExtend(s: string, q: string)
    requires TakeCategory(s).Some?
    ensures TakeCategory(s + q) == Some(Took(TakeCategory(s).value.value, TakeCategory(s).value.rest + q))
  {
    var id := TakeI32(s).value;
    TakeU32Extend(s, q);
    var len := TakeU32(id.rest).value;
    TakeU32Extend(id.rest, q);
    TakeBytesExtend(len.rest, len.value, q);
  }

  lemma TakeChannelExtend(s: string, q: string)
    requires TakeChannel(s).Some?
    ensures TakeChannel(s + q) == Some(Took(TakeChannel(s).value.value, TakeChannel(s).value.rest + q))
  {
    var uid := TakeU32(s).value;
    TakeU32Extend(s, q);
    var cat := TakeI32(uid.rest).value;
    TakeU32Extend(uid.rest, q);
    var num := TakeU32(cat.rest).value;
    TakeU32Extend(cat.rest, q);
    var len := TakeU32(num.rest).value;
    TakeU32Extend(num.rest, q);
    TakeBytesExtend(len.rest, len.value, q);
  }

  lemma {:induction false} TakeCategoriesExtend(s: string, n: nat, q: string)
    requires TakeCategories(s, n).Some?
    ensures TakeCategories(s + q, n) == Some(Took(TakeCategories(s, n).value.value, TakeCategories(s, n).value.rest + q))
    decreases n
  {
    if n > 0 {
      var prev := TakeCategories(s, n - 1).value;
      TakeCategoriesExtend(s, n - 1, q);
      TakeCategoryExtend(prev.rest, q);
    }
  }

  lemma {:induction false} TakeChannelsExtend(s: string, n: nat, q: string)
    requires TakeChannels(s, n).Some?
    ensures TakeChannels(s + q, n) == Some(Took(TakeChannels(s, n).value.value, TakeChannels(s, n).value.rest + q))
    decreases n
  {
    if n > 0 {
      var prev := TakeChannels(s, n - 1).value;
      TakeChannelsExtend(s, n - 1, q);
      TakeChannelExtend(prev.rest, q);
    }
  }

  lemma DecodeHeaderExtend(b: string, signature: string, q: string)
    requires DecodeHeader(b, signature).Some?
    ensures DecodeHeader(b + q, signature) ==
            Some(Took(DecodeHeader(b, signature).value.value, DecodeHeader(b, signature).value.rest + q))
  {
    var magic := TakeU32(b).value;
    TakeU32Extend(b, q);
    var sigLen := TakeU32(magic.rest).value;
    TakeU32Extend(magic.rest, q);
    var sig := TakeBytes(sigLen.rest, sigLen.value).value;
    TakeBytesExtend(sigLen.rest, sigLen.value, q);
    TakeU64Extend(sig.rest, q);
  }

  lemma DecodeBodyExtend(s: string, q: string)
    requires DecodeBody(s).Some?
    ensures DecodeBody(s + q) == Some(Took(DecodeBody(s).value.value, DecodeBody(s).value.rest + q))
  {
    var catCount := TakeU32(s).value;
    TakeU32Extend(s, q);
    var cats := TakeCategories(catCount.rest, catCount.value).value;
    TakeCategoriesExtend(catCount.rest, catCount.value, q);
    var chCount := TakeU32(cats.rest).value;
    TakeU32Extend(cats.rest, q);
    TakeChannelsExtend(chCount.rest, chCount.value, q);
  }

  /**
   * A blob cut short anywhere before its end is refused: some length or
   * count then runs past the bytes that are left.
   */
  lemma TruncatedRejected(signature: string, ts: u64, categories: seq<LiveCategory>, channels: seq<CacheChannel>, k: nat)
    requires Encodable(signature, categories, channels)
    requires k < |EncodeCache(signature, ts, categories, channels)|
    ensures DecodeCache(EncodeCache(signature, ts, categories, channels)[..k], signature) == None
  {
    var blob := EncodeCache(signature, ts, categories, channels);
    var cats := CacheCategories(categories);
    forall c | c in cats ensures |c.name| < Limit32 {
      CacheCategoryNames(categories, c);
    }
    var body := EncodeBody(cats, channels);
    HeaderRoundTrip(signature, ts, body);
    BodyRoundTrip(cats, channels, []);
    assert body + [] == body;
    ExactPrefixRejected(blob, signature, k);
  }

  /** A blob whose body is read to its last byte is refused once cut short. */
  lemma ExactPrefixRejected(b: string, signature: string, k: nat)
    requires k < |b| && DecodeHeader(b, signature).Some?
    requires DecodeBody(DecodeHeader(b, signature).value.rest).Some?
    requires DecodeBody(DecodeHeader(b, signature).value.rest).value.rest == []
    ensures DecodeCache(b[..k], signature) == None
  {
    var cut, q := b[..k], b[k..];
    assert cut + q == b;
    if DecodeHeader(cut, signature).Some? {
      var h := DecodeHeader(cut, signature).value;
      DecodeHeaderExtend(cut, signature, q);
      if DecodeBody(h.rest).Some? {
        DecodeBodyExtend(h.rest, q);
        assert false;
      }
    }
  }

  // ---------------------------------------------------------------------------
  // What a decoded blob seeds
  // ---------------------------------------------------------------------------

  /** The categories as entries for `categoryIdToName`. */
  function AsLive(cs: seq<CacheCategory>): (r: seq<LiveCategory>)
    ensures |r| == |cs|
    ensures forall i :: 0 <= i < |cs| ==> r[i] == LiveCategory(cs[i].id, cs[i].name)
  {
    seq(|cs|, i requires 0 <= i < |cs| => LiveCategory(cs[i].id, cs[i].name))
  }

  /** A channel record the loader keeps: a non-zero uid and a name. */
  predicate KeptRecord(c: CacheChannel) { c.uid != 0 && c.name != [] }

  /** The channel a kept record becomes: its number cast to `int`, no icon. */
  function CachedChannel(c: CacheChannel): PvrChannel {
    PvrChannel(c.uid, c.name, WrapInt32(c.channelNumber), [])
  }

  /** The kept records, in order. */
  function KeptRecords(cs: seq<CacheChannel>): (r: seq<CacheChannel>)
    ensures forall i :: 0 <= i < |r| ==> KeptRecord(r[i])
    ensures |r| <= |cs|
    decreases |cs|
  {
    if cs == [] then []
    else
      var init := KeptRecords(cs[..|cs| - 1]);
      var c := cs[|cs| - 1];
      if KeptRecord(c) then init + [c] else init
  }

  function ChannelsOf(kept: seq<CacheChannel>): (r: seq<PvrChannel>)
    ensures |r| == |kept|
    ensures forall i :: 0 <= i < |kept| ==> r[i] == CachedChannel(kept[i])
  {
    seq(|kept|, i requires 0 <= i < |kept| => CachedChannel(kept[i]))
  }

  function CategoryIdsOf(kept: seq<CacheChannel>): (r: seq<int>)
    ensures |r| == |kept|
    ensures forall i :: 0 <= i < |kept| ==> r[i] == kept[i].categoryId
  {
    seq(|kept|, i requires 0 <= i < |kept| => kept[i].categoryId)
  }

  /** The pairs `uidToStreamId.emplace(uid, static_cast<int>(uid))` is given. */
  function UidEntriesOf(kept: seq<CacheChannel>): (r: seq<(u32, int)>)
    ensures |r| == |kept|
    ensures forall i :: 0 <= i < |kept| ==> r[i] == (kept[i].uid, WrapInt32(kept[i].uid))
  {
    seq(|kept|, i requires 0 <= i < |kept| => (kept[i].uid, WrapInt32(kept[i].uid)))
  }

  /** What `TryLoadCacheForSignature` publishes for the decoded contents. */
  function SnapshotOf(contents: CacheContents): Snapshot {
    var table := NameTable(AsLive(contents.categories));
    var kept := KeptRecords(contents.channels);
    var channels := ChannelsOf(kept);
    var members := GroupMembersOf(channels, CategoryIdsOf(kept), table);
    Snapshot(channels, UidMap(UidEntriesOf(kept)), members, SortedGroupNames(SortById(table), members))
  }

  /** The outcome of loading blob `b` against `signature`, before the publish step. */
  function LoadedSnapshot(b: string, signature: string): Option<Snapshot> {
    match DecodeCache(b, signature)
    case None => None
    case Some(contents) => Some(SnapshotOf(contents))
  }

  // ---------------------------------------------------------------------------
  // The loader
  // ---------------------------------------------------------------------------

  lemma SuffixTake(b: string, off: nat, len: nat)
    requires off + len <= |b|
    ensures TakeBytes(b[off..], len) == Some(Took(b[off..off + len], b[off + len..]))
  {
    assert b[off..][..len] == b[off..off + len] && b[off..][len..] == b[off + len..];
  }

  /** One category record, as the category loop body reads it. */
  method ReadCategory(b: string, off: nat) returns (ok: bool, next: nat, c: CacheCategory)
    requires off <= |b|
    ensures ok <==> TakeCategory(b[off..]).Some?
    ensures ok ==> next <= |b| && TakeCategory(b[off..]) == Some(Took(c, b[next..]))
  {
    var okId, okLen: bool;
    var p, q: nat;
    var id: i32;
    var nameLen: u32;
    okId, p, id := ReadI32(b, off);
    if !okId {
      return false, off, CacheCategory(0, []);
    }
    okLen, q, nameLen := ReadU32(b, p);
    if !okLen || q + nameLen > |b| {
      return false, off, CacheCategory(0, []);
    }
    SuffixTake(b, q, nameLen);
    c := CacheCategory(id, b[q..q + nameLen]);
    return true, q + nameLen, c;
  }

  /** `n` category records never come back once fewer did not. */
  lemma {:induction false} TakeCategoriesNone(s: string, i: nat, n: nat)
    requires i <= n && TakeCategories(s, i).None?
    ensures TakeCategories(s, n).None?
    decreases n - i
  {
    if i < n {
      TakeCategoriesNone(s, i + 1, n);
    }
  }

  lemma {:induction false} TakeChannelsNone(s: string, i: nat, n: nat)
    requires i <= n && TakeChannels(s, i).None?
    ensures TakeChannels(s, n).None?
    decreases n - i
  {
    if i < n {
      TakeChannelsNone(s, i + 1, n);
    }
  }

  lemma TableStep(cats: seq<CacheCategory>, c: CacheCategory)
    ensures NameTable(AsLive(cats + [c])) ==
            var t := NameTable(AsLive(cats));
            var e := LiveCategory(c.id, c.name);
            if Usable(e) && NameOf(t, e.id).None? then t + [e] else t
  {
    assert AsLive(cats + [c])[..|cats|] == AsLive(cats);
  }

  /**
   * The category loop: `count` records from `off`, each `emplace`d into
   * `categoryIdToName` when its id is positive and its name non-empty;
   * any record running past the end fails the whole load.
   */
  method ReadCategories(b: string, off: nat, count: u32) returns (ok: bool, next: nat, table: seq<LiveCategory>)
    requires off <= |b|
    ensures ok <==> TakeCategories(b[off..], count).Some?
    ensures ok ==> next <= |b| && b[next..] == TakeCategories(b[off..], count).value.rest &&
                   table == NameTable(AsLive(TakeCategories(b[off..], count).value.value))
  {
    ghost var s := b[off..];
    ghost var cats: seq<CacheCategory> := [];
    table := [];
    next := off;
    var i: nat := 0;
    while i < count
      invariant i <= count && next <= |b|
      invariant TakeCategories(s, i) == Some(Took(cats, b[next..]))
      invariant table == NameTable(AsLive(cats))
    {
      var okC, after, c := ReadCategory(b, next);
      if !okC {
        TakeCategoriesNone(s, i + 1, count);
        return false, next, table;
      }
      TakeCategoriesSnoc(s, cats, b[next..], c, b[after..]);
      TableStep(cats, c);
      if c.id > 0 && c.name != [] && NameOf(table, c.id).None? {
        table := table + [LiveCategory(c.id, c.name)];
      }
      cats := cats + [c];
      next := after;
      i := i + 1;
    }
    ok := true;
  }

  /** One channel record, as the channel loop body reads it. */
  method ReadChannel(b: string, off: nat) returns (ok: bool, next: nat, c: CacheChannel)
    requires off <= |b|
    ensures ok <==> TakeChannel(b[off..]).Some?
    ensures ok ==> next <= |b| && TakeChannel(b[off..]) == Some(Took(c, b[next..]))
  {
    var ok1, ok2, ok3, ok4: bool;
    var p1, p2, p3, p4: nat;
    var uid, chNum, nameLen: u32;
    var catId: i32;
    ok1, p1, uid := ReadU32(b, off);
    if !ok1 {
      return false, off, CacheChannel(0, 0, 0, []);
    }
    ok2, p2, catId := ReadI32(b, p1);
    if !ok2 {
      return false, off, CacheChannel(0, 0, 0, []);
    }
    ok3, p3, chNum := ReadU32(b, p2);
    if !ok3 {
      return false, off, CacheChannel(0, 0, 0, []);
    }
    ok4, p4, nameLen := ReadU32(b, p3);
    if !ok4 || p4 + nameLen > |b| {
      return false, off, CacheChannel(0, 0, 0, []);
    }
    SuffixTake(b, p4, nameLen);
    c := CacheChannel(uid, catId, chNum, b[p4..p4 + nameLen]);
    return true, p4 + nameLen, c;
  }

  lemma KeptStep(cs: seq<CacheChannel>, c: CacheChannel)
    ensures KeptRecords(cs + [c]) == KeptRecords(cs) + (if KeptRecord(c) then [c] else [])
  {
    assert (cs + [c])[..|cs|] == cs;
  }

  /**
   * The channel loop: `count` records from `off`; a record with uid 0 or
   * an empty name is skipped, every other one becomes a channel, a uid
   * map entry and a remembered category id.
   */
  method ReadChannels(b: string, off: nat, count: u32)
    returns (ok: bool, next: nat, channels: seq<PvrChannel>, uidToStreamId: map<u32, int>, catIds: seq<int>)
    requires off <= |b|
    ensures ok <==> TakeChannels(b[off..], count).Some?
    ensures ok ==> var kept := KeptRecords(TakeChannels(b[off..], count).value.value);
                   next <= |b| && b[next..] == TakeChannels(b[off..], count).value.rest &&
                   channels == ChannelsOf(kept) && catIds == CategoryIdsOf(kept) &&
                   uidToStreamId == UidMap(UidEntriesOf(kept))
  {
    ghost var s := b[off..];
    ghost var records: seq<CacheChannel> := [];
    channels, uidToStreamId, catIds := [], map[], [];
    next := off;
    var i: nat := 0;
    while i < count
      invariant i <= count && next <= |b|
      invariant TakeChannels(s, i) == Some(Took(records, b[next..]))
      invariant channels == ChannelsOf(KeptRecords(records))
      invariant catIds == CategoryIdsOf(KeptRecords(records))
      invariant uidToStreamId == UidMap(UidEntriesOf(KeptRecords(records)))
    {
      var okC, after, c := ReadChannel(b, next);
      if !okC {
        TakeChannelsNone(s, i + 1, count);
        return false, next, channels, uidToStreamId, catIds;
      }
      TakeChannelsSnoc(s, records, b[next..], c, b[after..]);
      channels, uidToStreamId, catIds := KeepChannel(channels, uidToStreamId, catIds, records, c);
      records := records + [c];
      next := after;
      i := i + 1;
    }
    ok := true;
  }

  /**
   * The body of the decoding loop after a record was read: a record with a
   * uid and a name becomes a channel, its uid is mapped to itself unless
   * already mapped, and its category id is remembered.
   */
  method KeepChannel(channels: seq<PvrChannel>, uidToStreamId: map<u32, int>, catIds: seq<int>,
                     ghost records: seq<CacheChannel>, c: CacheChannel)
    returns (channels': seq<PvrChannel>, uidToStreamId': map<u32, int>, catIds': seq<int>)
    requires channels == ChannelsOf(KeptRecords(records))
    requires catIds == CategoryIdsOf(KeptRecords(records))
    requires uidToStreamId == UidMap(UidEntriesOf(KeptRecords(records)))
    ensures channels' == ChannelsOf(KeptRecords(records + [c]))
    ensures catIds' == CategoryIdsOf(KeptRecords(records + [c]))
    ensures uidToStreamId' == UidMap(UidEntriesOf(KeptRecords(records + [c])))
  {
    channels', uidToStreamId', catIds' := channels, uidToStreamId, catIds;
    KeptStep(records, c);
    if c.uid != 0 && c.name != [] {
      KeptSnoc(KeptRecords(records), c);
      channels' := channels' + [PvrChannel(c.uid, c.name, WrapInt32(c.channelNumber), [])];
      if c.uid !in uidToStreamId' {
        uidToStreamId' := uidToStreamId'[c.uid := WrapInt32(c.uid)];
      }
      catIds' := catIds' + [c.categoryId];
    }
  }

  lemma KeptSnoc(kept: seq<CacheChannel>, c: CacheChannel)
    ensures ChannelsOf(kept + [c]) == ChannelsOf(kept) + [CachedChannel(c)]
    ensures CategoryIdsOf(kept + [c]) == CategoryIdsOf(kept) + [c.categoryId]
    ensures UidEntriesOf(kept + [c])[..|kept|] == UidEntriesOf(kept)
    ensures UidMap(UidEntriesOf(kept + [c])) ==
            var m := UidMap(UidEntriesOf(kept));
            if c.uid in m then m else m[c.uid := WrapInt32(c.uid)]
  {
    assert UidEntriesOf(kept + [c])[..|kept|] == UidEntriesOf(kept);
  }

  /** The `groupMembers` loop over the loaded channels. */
  method BuildGroupMembers(channels: seq<PvrChannel>, catIds: seq<int>, table: seq<LiveCategory>)
    returns (members: map<string, seq<GroupMember>>)
    requires |channels| == |catIds|
    ensures members == GroupMembersOf(channels, catIds, table)
  {
    members := map[];
    var i := 0;
    while i < |channels|
      invariant i <= |channels|
      invariant members == GroupMembersOf(channels[..i], catIds[..i], table)
    {
      assert channels[..i + 1][..i] == channels[..i] && catIds[..i + 1][..i] == catIds[..i];
      var name := NameOf(table, catIds[i]);
      if name.Some? {
        var gm := GroupMember(channels[i].uniqueId, U32Of(channels[i].number), 0);
        members := members[name.value := MembersOf(members, name.value) + [gm]];
      }
      i := i + 1;
    }
    assert channels[..i] == channels && catIds[..i] == catIds;
  }

  /** `cats` sorted by id, then the names whose groups have members. */
  method OrderGroupNames(table: seq<LiveCategory>, members: map<string, seq<GroupMember>>) returns (names: seq<string>)
    ensures names == SortedGroupNames(SortById(table), members)
  {
    var cats := SortById(table);
    names := [];
    var i := 0;
    while i < |cats|
      invariant i <= |cats|
      invariant names == SortedGroupNames(cats[..i], members)
    {
      assert cats[..i + 1][..i] == cats[..i];
      var name := cats[i].name;
      if name in members && members[name] != [] {
        names := names + [name];
      }
      i := i + 1;
    }
    assert cats[..i] == cats;
  }

  /**
   * The decoding and derivation half of `TryLoadCacheForSignature`: the
   * blob is refused on any bad header, wrong signature or truncated
   * record, and otherwise gives the snapshot of what it holds.
   */
  method LoadCache(b: string, signature: string) returns (r: Option<Snapshot>)
    ensures r == LoadedSnapshot(b, signature)
  {
    var ok: bool;
    var off: nat;
    var magic, sigLen: u32;
    assert b[0..] == b;
    ok, off, magic := ReadU32(b, 0);
    if !ok || magic != CacheMagic {
      return None;
    }
    ok, off, sigLen := ReadU32(b, off);
    if !ok || off + sigLen > |b| {
      return None;
    }
    SuffixTake(b, off, sigLen);
    var sigOnDisk := b[off..off + sigLen];
    off := off + sigLen;
    if sigOnDisk != signature {
      return None;
    }
    var ts: u64;
    ok, off, ts := ReadU64(b, off);
    if !ok {
      return None;
    }
    assert DecodeHeader(b, signature) == Some(Took(ts, b[off..]));
    var okBody, table, channels, uidToStreamId, catIds := LoadBody(b, off);
    if !okBody {
      return None;
    }
    var members := BuildGroupMembers(channels, catIds, table);
    var names := OrderGroupNames(table, members);
    r := Some(Snapshot(channels, uidToStreamId, members, names));
  }

  /** The counts and records after the timestamp. */
  method LoadBody(b: string, off: nat)
    returns (ok: bool, table: seq<LiveCategory>, channels: seq<PvrChannel>, uidToStreamId: map<u32, int>, catIds: seq<int>)
    requires off <= |b|
    ensures ok <==> DecodeBody(b[off..]).Some?
    ensures ok ==> var contents := DecodeBody(b[off..]).value.value;
                   var kept := KeptRecords(contents.1);
                   table == NameTable(AsLive(contents.0)) && channels == ChannelsOf(kept) &&
                   catIds == CategoryIdsOf(kept) && uidToStreamId == UidMap(UidEntriesOf(kept))
  {
    var okCount: bool;
    var p: nat;
    var catCount, chCount: u32;
    okCount, p, catCount := ReadU32(b, off);
    if !okCount {
      return false, [], [], map[], [];
    }
    var okCats: bool;
    okCats, p, table := ReadCategories(b, p, catCount);
    if !okCats {
      return false, [], [], map[], [];
    }
    okCount, p, chCount := ReadU32(b, p);
    if !okCount {
      return false, [], [], map[], [];
    }
    ok, p, channels, uidToStreamId, catIds := ReadChannels(b, p, chCount);
  }

  // ---------------------------------------------------------------------------
  // The writer
  // ---------------------------------------------------------------------------

  /**
   * `SaveCache`, given the clock reading `ts`: the header, the usable
   * categories, then every channel record; the file write is not modelled.
   */
  method SaveCache(signature: string, ts: u64, categories: seq<LiveCategory>, cacheChannels: seq<CacheChannel>)
    returns (blob: string)
    ensures blob == EncodeCache(signature, ts, categories, cacheChannels)
  {
    blob := AppendHeader(signature, ts);
    var cats: seq<CacheCategory> := [];
    var i := 0;
    while i < |categories|
      invariant i <= |categories|
      invariant cats == CacheCategories(categories[..i])
    {
      assert categories[..i + 1][..i] == categories[..i];
      var c := categories[i];
      if c.id > 0 && c.name != [] {
        cats := cats + [CacheCategory(WrapInt32(c.id), c.name)];
      }
      i := i + 1;
    }
    assert categories[..i] == categories;
    var cats32 := AppendCategories(cats);
    var chans32 := AppendChannels(cacheChannels);
    BodyParts(cats, cacheChannels);
    blob := blob + (cats32 + chans32);
  }

  lemma BodyParts(cats: seq<CacheCategory>, channels: seq<CacheChannel>)
    ensures EncodeBody(cats, channels) ==
            (LeBytes(U32Of(|cats|), 4) + EncodeCategories(cats)) + (LeBytes(U32Of(|channels|), 4) + EncodeChannels(channels))
  {
  }

  /** Magic, signature length, signature and timestamp, appended in that order. */
  method AppendHeader(signature: string, ts: u64) returns (out: string)
    ensures out == EncodeHeader(signature, ts)
  {
    out := AppendU32([], CacheMagic);
    out := AppendU32(out, U32Of(|signature|));
    out := out + signature;
    out := AppendU64(out, ts);
    Regroup4([], LeBytes(CacheMagic, 4), LeBytes(U32Of(|signature|), 4), signature, LeBytes(ts, 8));
    assert [] + EncodeHeader(signature, ts) == EncodeHeader(signature, ts);
  }

  /** Appending pieces one after another is appending them all at once. */
  lemma Regroup3(out: string, a: string, b: string, c: string)
    ensures ((out + a) + b) + c == out + (a + (b + c))
  {
  }

  lemma Regroup4(out: string, a: string, b: string, c: string, d: string)
    ensures (((out + a) + b) + c) + d == out + (a + (b + (c + d)))
  {
    Regroup3(out + a, b, c, d);
    Regroup3(out, a, b, c + d);
  }

  lemma Regroup5(out: string, a: string, b: string, c: string, d: string, e: string)
    ensures ((((out + a) + b) + c) + d) + e == out + (a + (b + (c + (d + e))))
  {
    Regroup4(out + a, b, c, d, e);
    Regroup3(out, a, b, c + (d + e));
    assert (out + a) + (b + (c + (d + e))) == out + (a + (b + (c + (d + e))));
  }

  lemma EncodeCategoriesStep(cats: seq<CacheCategory>, j: nat)
    requires j < |cats|
    ensures EncodeCategories(cats[..j + 1]) == EncodeCategories(cats[..j]) + EncodeCategory(cats[j])
  {
    assert cats[..j + 1][..j] == cats[..j];
  }

  lemma EncodeChannelsStep(channels: seq<CacheChannel>, j: nat)
    requires j < |channels|
    ensures EncodeChannels(channels[..j + 1]) == EncodeChannels(channels[..j]) + EncodeChannel(channels[j])
  {
    assert channels[..j + 1][..j] == channels[..j];
  }

  /** One category record appended: id, name length, name. */
  method AppendCategory(out: string, c: CacheCategory) returns (r: string)
    ensures r == out + EncodeCategory(c)
  {
    r := AppendI32(out, c.id);
    r := AppendU32(r, U32Of(|c.name|));
    r := r + c.name;
    Regroup3(out, LeBytes(U32Of(c.id), 4), LeBytes(U32Of(|c.name|), 4), c.name);
  }

  /** One channel record appended: uid, category id, number, name length, name. */
  method AppendChannel(out: string, c: CacheChannel) returns (r: string)
    ensures r == out + EncodeChannel(c)
  {
    r := AppendU32(out, c.uid);
    r := AppendI32(r, c.categoryId);
    r := AppendU32(r, c.channelNumber);
    r := AppendU32(r, U32Of(|c.name|));
    r := r + c.name;
    Regroup5(out, LeBytes(c.uid, 4), LeBytes(U32Of(c.categoryId), 4), LeBytes(c.channelNumber, 4), LeBytes(U32Of(|c.name|), 4), c.name);
  }

  /** The category count and records as `SaveCache` appends them. */
  method AppendCategories(cats: seq<CacheCategory>) returns (out: string)
    ensures out == LeBytes(U32Of(|cats|), 4) + EncodeCategories(cats)
  {
    var count := AppendU32([], U32Of(|cats|));
    var records := [];
    var j := 0;
    while j < |cats|
      invariant j <= |cats|
      invariant records == EncodeCategories(cats[..j])
    {
      EncodeCategoriesStep(cats, j);
      records := AppendCategory(records, cats[j]);
      j := j + 1;
    }
    assert cats[..j] == cats;
    out := count + records;
  }

  /** The channel count and records as `SaveCache` appends them. */
  method AppendChannels(channels: seq<CacheChannel>) returns (out: string)
    ensures out == LeBytes(U32Of(|channels|), 4) + EncodeChannels(channels)
  {
    var count := AppendU32([], U32Of(|channels|));
    var records := [];
    var j := 0;
    while j < |channels|
      invariant j <= |channels|
      invariant records == EncodeChannels(channels[..j])
    {
      EncodeChannelsStep(channels, j);
      records := AppendChannel(records, channels[j]);
      j := j + 1;
    }
    assert channels[..j] == channels;
    out := count + records;
  }

  /**
   * What a later load makes of a saved blob: exactly the snapshot of the
   * usable categories and the channel records that were saved.
   */
  lemma SaveThenLoad(signature: string, ts: u64, categories: seq<LiveCategory>, channels: seq<CacheChannel>, trailing: string)
    requires Encodable(signature, categories, channels)
    ensures LoadedSnapshot(EncodeCache(signature, ts, categories, channels) + trailing, signature) ==
            Some(SnapshotOf(CacheContents(ts, CacheCategories(categories), channels)))
  {
    CacheRoundTrip(signature, ts, categories, channels, trailing);
  }
}

/**
 * The field extractors the Xtream client applies to one object of a
 * `player_api.php` response (xtream_client.cpp): `FindKeyPos`, `ParseIntAt`,
 * `ExtractIntField`, `ExtractBoolField` and `ExtractStringField`.
 *
 * None of them parses JSON: a field is found by the first occurrence of
 * `"key"` anywhere in the object text, its value starts after the next `:`,
 * and the value is read leniently (numbers may be quoted, booleans may be
 * `true`/`false`, `1`/`0` or `"1"`/`"0"`, strings are unescaped with a
 * hand-written `\uXXXX` decoder that joins surrogate pairs).
 */
module JsonFields {
  import opened Text
  import opened Unicode

  // ---------------------------------------------------------------------------
  // Locating a field
  // ---------------------------------------------------------------------------

  /** The text `FindKeyPos` searches for: the key in double quotes. */
  function KeyNeedle(key: string): string { "\"" + key + "\"" }

  /**
   * `FindKeyPos` followed by `obj.find(':', pos)`: the index just after the
   * first colon at or after the first occurrence of `"key"`.
   */
  function ValueStart(obj: string, key: string): (r: Option<nat>)
    ensures r.Some? ==> 1 <= r.value <= |obj| && obj[r.value - 1] == ':'
  {
    match Find(obj, KeyNeedle(key), 0)
    case None => None
    case Some(kp) =>
      match FindChar(obj, ':', kp)
      case None => None
      case Some(c) => Some(c + 1)
  }

  /**
   * Where a writer put the field: when the first mention of `"key"` is the
   * one at `|pre|`, it is followed by a colon and the key holds no colon,
   * the value is read from just after that colon.
   */
  lemma ValueStartOfWrittenField(obj: string, pre: string, key: string)
    requires StartsWith(obj, pre + KeyNeedle(key) + ":")
    requires forall k :: 0 <= k < |pre| ==> !OccursAt(obj, KeyNeedle(key), k)
    requires forall k :: 0 <= k < |key| ==> key[k] != ':'
    ensures ValueStart(obj, key) == Some(|pre| + |key| + 3)
  {
    var w := pre + KeyNeedle(key) + ":";
    PrefixSlice(obj, w, |pre|, |pre| + |key| + 2);
    assert w[|pre|..|pre| + |key| + 2] == KeyNeedle(key);
    assert OccursAt(obj, KeyNeedle(key), |pre|);
    FindIsFirst(obj, KeyNeedle(key), 0);
    assert Find(obj, KeyNeedle(key), 0) == Some(|pre|);
    forall k | |pre| <= k < |pre| + |key| + 2 ensures obj[k] != ':' {
      assert obj[k] == obj[..|w|][k] == w[k];
      if |pre| < k < |pre| + |key| + 1 {
        assert w[k] == key[k - |pre| - 1];
      }
    }
    assert obj[|pre| + |key| + 2] == obj[..|w|][|pre| + |key| + 2] == w[|pre| + |key| + 2] == ':';
  }

  /**
   * The layout a writer produces for `"key":<white space><value>`: the value
   * starts right after the colon, the white space follows it and then the
   * value text.
   */
  lemma WrittenFieldLayout(obj: string, pre: string, key: string, ws: string, lit: string)
    requires StartsWith(obj, pre + KeyNeedle(key) + ":" + ws + lit)
    requires forall k :: 0 <= k < |pre| ==> !OccursAt(obj, KeyNeedle(key), k)
    requires forall k :: 0 <= k < |key| ==> key[k] != ':'
    ensures ValueStart(obj, key) == Some(|pre| + |key| + 3)
    ensures |pre + KeyNeedle(key) + ":" + ws + lit| == |pre| + |key| + 3 + |ws| + |lit| <= |obj|
    ensures obj[|pre| + |key| + 3..|pre| + |key| + 3 + |ws|] == ws
    ensures StartsWith(obj[|pre| + |key| + 3 + |ws|..], lit)
  {
    var head := pre + KeyNeedle(key) + ":";
    StartsWithConcat(obj, head + ws, lit);
    StartsWithConcat(obj, head, ws);
    ValueStartOfWrittenField(obj, pre, key);
    PrefixSlice(obj, head + ws, |head|, |head| + |ws|);
    assert (head + ws)[|head|..|head| + |ws|] == ws;
  }

  // ---------------------------------------------------------------------------
  // Integers
  // ---------------------------------------------------------------------------

  /**
   * What `ParseIntAt` reads at `pos`: white space, an optional opening quote,
   * an optional minus sign and at least one digit. A closing quote is not
   * required and whatever follows the digits is ignored.
   */
  function IntAt(obj: string, pos: nat): (r: Option<int>)
    ensures r.Some? ==> IsInt32(r.value)
  {
    var p := SkipSpaces(obj, pos);
    if p >= |obj| then None
    else SignedAt(obj, if obj[p] == '"' then p + 1 else p)
  }

  /** An optional minus sign and at least one digit at `q`, wrapped to 32 bits. */
  function SignedAt(obj: string, q: nat): (r: Option<int>)
    requires q <= |obj|
    ensures r.Some? ==> IsInt32(r.value)
  {
    var neg := q < |obj| && obj[q] == '-';
    var d := if neg then q + 1 else q;
    var e := DigitsEnd(obj, d);
    if e == d then None
    else
      var v: int := DigitsValue(obj[d..e]);
      Some(WrapInt32(if neg then -v else v))
  }

  /** The digit-accumulating loop of `ParseIntAt`. */
  method AccumulateDigits(obj: string, start: nat) returns (v: nat, end: nat)
    requires start <= |obj|
    ensures end == DigitsEnd(obj, start)
    ensures v == DigitsValue(obj[start..end])
  {
    v, end := 0, start;
    while end < |obj| && IsDigit(obj[end])
      invariant start <= end <= |obj|
      invariant DigitsEnd(obj, end) == DigitsEnd(obj, start)
      invariant forall k :: start <= k < end ==> IsDigit(obj[k])
      invariant v == DigitsValue(obj[start..end])
    {
      assert obj[start..end + 1][..end - start] == obj[start..end];
      v := v * 10 + DigitValue(obj[end]);
      end := end + 1;
    }
  }

  /** `ParseIntAt`: reports whether a number was found and the number. */
  method ParseIntAt(obj: string, pos: nat) returns (ok: bool, out: int)
    ensures ok == IntAt(obj, pos).Some?
    ensures ok ==> out == IntAt(obj, pos).value
  {
    var p := pos;
    while p < |obj| && IsSpace(obj[p])
      invariant pos <= p
      invariant SkipSpaces(obj, p) == SkipSpaces(obj, pos)
    {
      p := p + 1;
    }
    if p >= |obj| {
      return false, 0;
    }
    if obj[p] == '"' {
      p := p + 1;
    }
    ok, out := ParseSignedAt(obj, p);
  }

  /** The sign and digits part of `ParseIntAt`. */
  method ParseSignedAt(obj: string, q: nat) returns (ok: bool, out: int)
    requires q <= |obj|
    ensures ok == SignedAt(obj, q).Some?
    ensures ok ==> out == SignedAt(obj, q).value
  {
    var p := q;
    var neg := false;
    if p < |obj| && obj[p] == '-' {
      neg := true;
      p := p + 1;
    }
    var v, end := AccumulateDigits(obj, p);
    if end == p {
      return false, 0;
    }
    var signed := if neg then -(v as int) else v;
    ok, out := true, WrapInt32(signed);
  }

  /** `ExtractIntField`. */
  function ExtractIntField(obj: string, key: string): Option<int> {
    match ValueStart(obj, key)
    case None => None
    case Some(p) => IntAt(obj, p)
  }

  /** How a provider may write an integer: bare, or as a string. */
  function IntLiteral(n: int, quoted: bool): string {
    (if quoted then "\"" else "") + IntToString(n)
  }

  /** The number `std::to_string` wrote at `q` is read back, wrapped to 32 bits. */
  lemma SignedAtReadsBack(obj: string, q: nat, n: int)
    requires q <= |obj| && StartsWith(obj[q..], IntToString(n))
    requires q + |IntToString(n)| < |obj| ==> !IsDigit(obj[q + |IntToString(n)|])
    ensures SignedAt(obj, q) == Some(WrapInt32(n))
  {
    var lit := IntToString(n);
    LiteralAt(obj, q, lit);
    if n < 0 {
      assert lit == "-" + NatToString(-n);
      SplitSlice(obj, q, q + 1, q + |lit|, "-", NatToString(-n));
      assert obj[q] == obj[q..q + 1][0];
      DigitRunReadsBack(obj, q + 1, q + |lit|, -n);
    } else {
      assert obj[q] == obj[q..q + |lit|][0] == NatToString(n)[0];
      DigitRunReadsBack(obj, q, q + |lit|, n);
    }
  }

  /** A text that starts with `lit` at `q` holds `lit` in the slice from `q`. */
  lemma LiteralAt(obj: string, q: nat, lit: string)
    requires q <= |obj| && StartsWith(obj[q..], lit)
    ensures q + |lit| <= |obj| && obj[q..q + |lit|] == lit
  {
    assert obj[q..][..|lit|] == obj[q..q + |lit|];
  }

  /** The digits `std::to_string` wrote between `d` and `e` are the whole run and read back. */
  lemma DigitRunReadsBack(obj: string, d: nat, e: nat, m: nat)
    requires d <= e <= |obj| && obj[d..e] == NatToString(m)
    requires e < |obj| ==> !IsDigit(obj[e])
    ensures d < e && DigitsEnd(obj, d) == e && DigitsValue(obj[d..e]) == m
  {
    forall k | d <= k < e ensures IsDigit(obj[k]) {
      assert obj[k] == obj[d..e][k - d];
    }
    DigitsEndOfRun(obj, d, e);
    DigitsValueOfNatToString(m);
  }

  /**
   * An integer written by `std::to_string`, quoted or not, after any white
   * space and before a byte that is not a digit, is read back as its value
   * wrapped to 32 bits.
   */
  lemma IntAtReadsWrapped(obj: string, pos: nat, q: nat, n: int, quoted: bool)
    requires pos <= q <= |obj| && AllSpace(obj[pos..q])
    requires StartsWith(obj[q..], IntLiteral(n, quoted))
    requires q + |IntLiteral(n, quoted)| < |obj| ==> !IsDigit(obj[q + |IntLiteral(n, quoted)|])
    ensures IntAt(obj, pos) == Some(WrapInt32(n))
  {
    LiteralNotSpace(obj, q, n, quoted);
    SkipOverSpaces(obj, pos, q);
    QuotedIntAt(obj, q, n, quoted);
    IntAtFrom(obj, pos, q);
  }

  /** `ParseIntAt` reads the optional quote at the first byte that is not white space. */
  lemma IntAtFrom(obj: string, pos: nat, q: nat)
    requires q < |obj| && SkipSpaces(obj, pos) == q
    ensures IntAt(obj, pos) == SignedAt(obj, if obj[q] == '"' then q + 1 else q)
  {
  }

  lemma LiteralNotSpace(obj: string, q: nat, n: int, quoted: bool)
    requires q <= |obj| && StartsWith(obj[q..], IntLiteral(n, quoted))
    ensures q < |obj| && !IsSpace(obj[q])
  {
    var lit := IntLiteral(n, quoted);
    IntLiteralShape(n, quoted);
    assert obj[q..][0] == obj[q];
  }

  lemma QuotedIntAt(obj: string, q: nat, n: int, quoted: bool)
    requires q <= |obj|
    requires StartsWith(obj[q..], IntLiteral(n, quoted))
    requires q + |IntLiteral(n, quoted)| < |obj| ==> !IsDigit(obj[q + |IntLiteral(n, quoted)|])
    ensures q < |obj| && SignedAt(obj, if obj[q] == '"' then q + 1 else q) == Some(WrapInt32(n))
  {
    var lit := IntLiteral(n, quoted);
    var a := if quoted then 1 else 0;
    IntLiteralShape(n, quoted);
    var e := q + |lit|;
    assert obj[q..e] == lit by {
      assert obj[q..][..|lit|] == obj[q..e];
    }
    assert obj[q + a..e] == lit[a..] by {
      assert obj[q + a..e] == obj[q..e][a..];
    }
    assert q < |obj| && obj[q] == lit[0] by {
      assert obj[q..e][0] == obj[q];
    }
    assert StartsWith(obj[q + a..], IntToString(n)) by {
      assert obj[q + a..][..|lit| - a] == obj[q + a..e];
    }
    SignedAtReadsBack(obj, q + a, n);
  }

  /** The first byte of a literal tells whether it is quoted; it is never white space. */
  lemma IntLiteralShape(n: int, quoted: bool)
    ensures var lit := IntLiteral(n, quoted);
      var a := if quoted then 1 else 0;
      |lit| > a && lit[a..] == IntToString(n)
      && (lit[0] == '"' <==> quoted) && !IsSpace(lit[0])
  {
    var body := IntToString(n);
    var lit := IntLiteral(n, quoted);
    var a := if quoted then 1 else 0;
    assert lit[a..] == body;
    if quoted {
      assert lit[0] == '"';
    } else if n < 0 {
      assert lit[0] == '-';
    } else {
      assert lit[0] == body[0] && IsDigit(body[0]);
    }
  }

  /**
   * `ExtractIntField` reads back a 32-bit integer a provider wrote for the
   * first mention of the key, bare or quoted, with or without white space
   * after the colon.
   */
  lemma ExtractIntFieldReadsBack(obj: string, pre: string, key: string, ws: string, n: int, quoted: bool)
    requires IsInt32(n) && AllSpace(ws)
    requires StartsWith(obj, pre + KeyNeedle(key) + ":" + ws + IntLiteral(n, quoted))
    requires forall k :: 0 <= k < |pre| ==> !OccursAt(obj, KeyNeedle(key), k)
    requires forall k :: 0 <= k < |key| ==> key[k] != ':'
    requires |pre + KeyNeedle(key) + ":" + ws + IntLiteral(n, quoted)| < |obj| ==>
               !IsDigit(obj[|pre + KeyNeedle(key) + ":" + ws + IntLiteral(n, quoted)|])
    ensures ExtractIntField(obj, key) == Some(n)
  {
    WrittenFieldLayout(obj, pre, key, ws, IntLiteral(n, quoted));
    IntFieldOfLayout(obj, key, ws, |pre| + |key| + 3, n, quoted);
  }

  /** The value found after the key's colon, white space and then a literal, reads back. */
  lemma IntFieldOfLayout(obj: string, key: string, ws: string, p: nat, n: int, quoted: bool)
    requires IsInt32(n) && AllSpace(ws) && ValueStart(obj, key) == Some(p)
    requires p + |ws| + |IntLiteral(n, quoted)| <= |obj| && obj[p..p + |ws|] == ws
    requires StartsWith(obj[p + |ws|..], IntLiteral(n, quoted))
    requires p + |ws| + |IntLiteral(n, quoted)| < |obj| ==> !IsDigit(obj[p + |ws| + |IntLiteral(n, quoted)|])
    ensures ExtractIntField(obj, key) == Some(n)
  {
    IntAtReadsWrapped(obj, p, p + |ws|, n, quoted);
    WrapInt32Identity(n);
  }

  // ---------------------------------------------------------------------------
  // Booleans
  // ---------------------------------------------------------------------------

  /** `s.substr(p, n)`. */
  function Substr(s: string, p: nat, n: nat): string
    requires p <= |s|
  {
    if p + n <= |s| then s[p..p + n] else s[p..]
  }

  /** The value tests `ExtractBoolField` applies after the colon and white space. */
  function BoolAt(obj: string, pos: nat): Option<bool> {
    var p := SkipSpaces(obj, pos);
    if p >= |obj| then None
    else if Substr(obj, p, 4) == "true" then Some(true)
    else if Substr(obj, p, 5) == "false" then Some(false)
    else if obj[p] == '1' then Some(true)
    else if obj[p] == '0' then Some(false)
    else if obj[p] == '"' && p + 1 < |obj| && obj[p + 1] == '1' then Some(true)
    else if obj[p] == '"' && p + 1 < |obj| && obj[p + 1] == '0' then Some(false)
    else None
  }

  /** `ExtractBoolField`. */
  function ExtractBoolField(obj: string, key: string): Option<bool> {
    match ValueStart(obj, key)
    case None => None
    case Some(p) => BoolAt(obj, p)
  }

  /** The three ways a provider writes a flag. */
  datatype BoolForm = Literal | Digit | QuotedDigit

  function BoolText(b: bool, form: BoolForm): string {
    match form
    case Literal => if b then "true" else "false"
    case Digit => if b then "1" else "0"
    case QuotedDigit => if b then "\"1\"" else "\"0\""
  }

  /**
   * Each of the three forms is read back as the flag it stands for, after
   * any white space and whatever follows it.
   */
  lemma BoolAtReadsBack(obj: string, pos: nat, q: nat, b: bool, form: BoolForm)
    requires pos <= q <= |obj| && AllSpace(obj[pos..q])
    requires StartsWith(obj[q..], BoolText(b, form))
    ensures BoolAt(obj, pos) == Some(b)
  {
    var t := BoolText(b, form);
    assert forall k :: 0 <= k < |t| ==> obj[q + k] == obj[q..][k] == t[k];
    assert obj[q..q + |t|] == t;
    SkipOverSpaces(obj, pos, q);
    if form == Literal {
      if !b {
        assert Substr(obj, q, 4) != "true" by {
          assert Substr(obj, q, 4)[0] == obj[q] == 'f';
        }
      }
    } else {
      assert Substr(obj, q, 4) != "true" && Substr(obj, q, 5) != "false" by {
        assert Substr(obj, q, 4)[0] == obj[q] && Substr(obj, q, 5)[0] == obj[q];
      }
    }
  }

  /**
   * `ExtractBoolField` reads back a flag a provider wrote for the first
   * mention of the key, in any of the three forms.
   */
  lemma ExtractBoolFieldReadsBack(obj: string, pre: string, key: string, ws: string, b: bool, form: BoolForm)
    requires AllSpace(ws)
    requires StartsWith(obj, pre + KeyNeedle(key) + ":" + ws + BoolText(b, form))
    requires forall k :: 0 <= k < |pre| ==> !OccursAt(obj, KeyNeedle(key), k)
    requires forall k :: 0 <= k < |key| ==> key[k] != ':'
    ensures ExtractBoolField(obj, key) == Some(b)
  {
    var p := |pre| + |key| + 3;
    WrittenFieldLayout(obj, pre, key, ws, BoolText(b, form));
    BoolAtReadsBack(obj, p, p + |ws|, b, form);
  }

  /** A quoted literal is not accepted: `"true"` and `"false"` in quotes read as nothing. */
  lemma QuotedLiteralRejected()
    ensures BoolAt("\"true\"", 0) == None
    ensures BoolAt(" \"false\"", 0) == None
  {
  }

  // ---------------------------------------------------------------------------
  // Strings
  // ---------------------------------------------------------------------------

  /** The code unit spelled by the four hex digits at `i`, if all four are hex digits. */
  function Hex4At(obj: string, i: nat): (r: Option<nat>)
    requires i + 4 <= |obj|
    ensures r.Some? ==> r.value < 0x10000
  {
    var h1, h2, h3, h4 := HexVal(obj[i]), HexVal(obj[i + 1]), HexVal(obj[i + 2]), HexVal(obj[i + 3]);
    if h1 >= 0 && h2 >= 0 && h3 >= 0 && h4 >= 0 then Some(h1 * 4096 + h2 * 256 + h3 * 16 + h4)
    else None
  }

  /** The low half the decoder reads after a high surrogate; 0 when it is not four hex digits. */
  function LowUnitAt(obj: string, i: nat): nat
    requires i + 4 <= |obj|
  {
    match Hex4At(obj, i)
    case Some(v) => v
    case None => 0
  }

  /** The bytes an escape appends, and the index of the last byte it consumed. */
  datatype Unescaped = Unescaped(bytes: string, last: nat)

  /**
   * The `\u` case, with `pos` at the `u`: four hex digits give a code unit; a
   * high surrogate followed by `\u` and a low surrogate gives one
   * supplementary code point; any other surrogate becomes U+FFFD; when the
   * four hex digits are missing the `u` itself is kept.
   */
  function UnicodeEscape(obj: string, pos: nat): (r: Unescaped)
    requires pos < |obj| && obj[pos] == 'u'
    ensures pos <= r.last < |obj|
  {
    if pos + 4 < |obj| && Hex4At(obj, pos + 1).Some? then
      var cu := Hex4At(obj, pos + 1).value;
      var p := pos + 4;
      if IsHighSurrogate(cu) && p + 6 < |obj| && obj[p + 1] == '\\' && obj[p + 2] == 'u'
         && IsLowSurrogate(LowUnitAt(obj, p + 3)) then
        Unescaped(Utf8(CombineSurrogates(cu, LowUnitAt(obj, p + 3))), p + 6)
      else if IsSurrogate(cu) then
        Unescaped(Utf8(0xFFFD), p)
      else
        Unescaped(Utf8(cu), p)
    else
      Unescaped("u", pos)
  }

  /** The byte after a backslash: the two-character escapes, `\u`, and any other byte kept verbatim. */
  function EscapeAt(obj: string, pos: nat): (r: Unescaped)
    requires pos < |obj|
    ensures pos <= r.last < |obj|
  {
    var c := obj[pos];
    if c == 'b' then Unescaped([8 as char], pos)
    else if c == 'f' then Unescaped([12 as char], pos)
    else if c == 'n' then Unescaped("\n", pos)
    else if c == 'r' then Unescaped("\r", pos)
    else if c == 't' then Unescaped("\t", pos)
    else if c == 'u' then UnicodeEscape(obj, pos)
    else Unescaped([c], pos)
  }

  function Prepend(s: string, o: Option<string>): Option<string> {
    match o
    case None => None
    case Some(t) => Some(s + t)
  }

  lemma PrependEmpty(o: Option<string>)
    ensures Prepend([], o) == o
  {
    if o.Some? {
      assert [] + o.value == o.value;
    }
  }

  lemma PrependTwice(a: string, b: string, o: Option<string>)
    ensures Prepend(a, Prepend(b, o)) == Prepend(a + b, o)
  {
    if o.Some? {
      assert a + (b + o.value) == (a + b) + o.value;
    }
  }

  /**
   * The string value read from `pos` to the closing quote, `escape` telling
   * whether the previous byte was a backslash; `None` when the text ends first.
   */
  function StringFrom(obj: string, pos: nat, escape: bool): Option<string>
    decreases |obj| - pos
  {
    if pos >= |obj| then None
    else if escape then
      var u := EscapeAt(obj, pos);
      Prepend(u.bytes, StringFrom(obj, u.last + 1, false))
    else if obj[pos] == '\\' then StringFrom(obj, pos + 1, true)
    else if obj[pos] == '"' then Some([])
    else Prepend([obj[pos]], StringFrom(obj, pos + 1, false))
  }

  /** The value `ExtractStringField` yields: a string must open right after the colon and white space. */
  function StringField(obj: string, key: string): Option<string> {
    match ValueStart(obj, key)
    case None => None
    case Some(p) =>
      var q := SkipSpaces(obj, p);
      if q >= |obj| || obj[q] != '"' then None else StringFrom(obj, q + 1, false)
  }

  /** `ExtractStringField`: reports whether a string value was found and the unescaped bytes. */
  method ExtractStringField(obj: string, key: string) returns (ok: bool, out: string)
    ensures ok == StringField(obj, key).Some?
    ensures ok ==> out == StringField(obj, key).value
  {
    var vs := ValueStart(obj, key);
    if vs.None? {
      return false, "";
    }
    var pos := vs.value;
    while pos < |obj| && IsSpace(obj[pos])
      invariant vs.value <= pos
      invariant SkipSpaces(obj, pos) == SkipSpaces(obj, vs.value)
    {
      pos := pos + 1;
    }
    if pos >= |obj| || obj[pos] != '"' {
      return false, "";
    }
    ok, out := DecodeStringFrom(obj, pos + 1);
  }

  /**
   * The unescaping loop of `ExtractStringField`, from the byte after the
   * opening quote to the closing quote.
   */
  method DecodeStringFrom(obj: string, start: nat) returns (ok: bool, out: string)
    ensures ok == StringFrom(obj, start, false).Some?
    ensures ok ==> out == StringFrom(obj, start, false).value
  {
    var pos := start;
    var s := "";
    var escape := false;
    PrependEmpty(StringFrom(obj, pos, false));
    while pos < |obj|
      invariant start <= pos
      invariant Prepend(s, StringFrom(obj, pos, escape)) == StringFrom(obj, start, false)
      decreases |obj| - pos
    {
      var c := obj[pos];
      if escape {
        ghost var before := s;
        ghost var at := pos;
        s, pos := AppendEscape(obj, pos, s);
        EscapeStep(obj, at, before);
        escape := false;
        pos := pos + 1;
      } else if c == '\\' {
        BackslashOpens(obj, pos);
        escape := true;
        pos := pos + 1;
      } else if c == '"' {
        QuoteCloses(obj, pos, s);
        return true, s;
      } else {
        PlainStep(obj, pos, s);
        s := s + [c];
        pos := pos + 1;
      }
    }
    return false, "";
  }

  /** The `switch` on the byte after a backslash. */
  method AppendEscape(obj: string, pos: nat, s: string) returns (s': string, pos': nat)
    requires pos < |obj|
    ensures s' == s + EscapeAt(obj, pos).bytes && pos' == EscapeAt(obj, pos).last
  {
    var c := obj[pos];
    pos' := pos;
    if c == 'b' {
      s' := s + [8 as char];
    } else if c == 'f' {
      s' := s + [12 as char];
    } else if c == 'n' {
      s' := s + "\n";
    } else if c == 'r' {
      s' := s + "\r";
    } else if c == 't' {
      s' := s + "\t";
    } else if c == 'u' {
      s', pos' := AppendUnicodeEscape(obj, pos, s);
    } else {
      s' := s + [c];
    }
  }

  lemma EscapeStep(obj: string, pos: nat, s: string)
    requires pos < |obj|
    ensures Prepend(s, StringFrom(obj, pos, true))
         == Prepend(s + EscapeAt(obj, pos).bytes, StringFrom(obj, EscapeAt(obj, pos).last + 1, false))
  {
    PrependTwice(s, EscapeAt(obj, pos).bytes, StringFrom(obj, EscapeAt(obj, pos).last + 1, false));
  }

  lemma BackslashOpens(obj: string, pos: nat)
    requires pos < |obj| && obj[pos] == '\\'
    ensures StringFrom(obj, pos, false) == StringFrom(obj, pos + 1, true)
  {
  }

  lemma QuoteCloses(obj: string, pos: nat, s: string)
    requires pos < |obj| && obj[pos] == '"'
    ensures Prepend(s, StringFrom(obj, pos, false)) == Some(s)
  {
    assert s + [] == s;
  }

  lemma PlainStep(obj: string, pos: nat, s: string)
    requires pos < |obj| && obj[pos] != '\\' && obj[pos] != '"'
    ensures Prepend(s, StringFrom(obj, pos, false)) == Prepend(s + [obj[pos]], StringFrom(obj, pos + 1, false))
  {
    PrependTwice(s, [obj[pos]], StringFrom(obj, pos + 1, false));
  }

  /** The `case 'u'` block: appends the decoded bytes and moves to the last byte consumed. */
  method AppendUnicodeEscape(obj: string, pos: nat, s: string) returns (s': string, pos': nat)
    requires pos < |obj| && obj[pos] == 'u'
    ensures s' == s + UnicodeEscape(obj, pos).bytes
    ensures pos' == UnicodeEscape(obj, pos).last
  {
    s', pos' := s, pos;
    if pos + 4 < |obj| {
      var ok, cu := ReadHex4(obj, pos + 1);
      if ok {
        pos' := pos + 4;
        if IsHighSurrogate(cu) && pos' + 6 < |obj| && obj[pos' + 1] == '\\' && obj[pos' + 2] == 'u' {
          var okLow, lo := ReadHex4(obj, pos' + 3);
          if !okLow {
            lo := 0;
          }
          if IsLowSurrogate(lo) {
            s' := s' + Utf8(CombineSurrogates(cu, lo));
            pos' := pos' + 6;
            return;
          }
        }
        if IsSurrogate(cu) {
          s' := s' + Utf8(0xFFFD);
        } else {
          s' := s' + Utf8(cu);
        }
        return;
      }
    }
    s' := s' + "u";
  }

  /** The four `HexVal` reads of a `\u` escape and the code unit they make. */
  method ReadHex4(obj: string, i: nat) returns (ok: bool, v: nat)
    requires i + 4 <= |obj|
    ensures ok == Hex4At(obj, i).Some?
    ensures ok ==> v == Hex4At(obj, i).value
  {
    var h1, h2, h3, h4 := HexVal(obj[i]), HexVal(obj[i + 1]), HexVal(obj[i + 2]), HexVal(obj[i + 3]);
    ok := h1 >= 0 && h2 >= 0 && h3 >= 0 && h4 >= 0;
    v := if ok then h1 * 4096 + h2 * 256 + h3 * 16 + h4 else 0;
  }

  // ---------------------------------------------------------------------------
  // What the string decoder accepts
  // ---------------------------------------------------------------------------

  /** Without a closing quote after `pos` there is no value: the extractor fails. */
  lemma {:induction false} UnterminatedStringRejected(obj: string, pos: nat, escape: bool)
    requires forall k :: pos <= k < |obj| ==> obj[k] != '"'
    ensures StringFrom(obj, pos, escape) == None
    decreases |obj| - pos
  {
    if pos < |obj| {
      if escape {
        UnterminatedStringRejected(obj, EscapeAt(obj, pos).last + 1, false);
      } else if obj[pos] == '\\' {
        UnterminatedStringRejected(obj, pos + 1, true);
      } else {
        UnterminatedStringRejected(obj, pos + 1, false);
      }
    }
  }

  /** A code unit as the four hex digits of a `\uXXXX` escape. */
  function Hex4Text(v: nat): (r: string)
    requires v < 0x10000
    ensures |r| == 4
  {
    [HexDigit(v / 4096), HexDigit((v / 256) % 16), HexDigit((v / 16) % 16), HexDigit(v % 16)]
  }

  lemma Hex4TextReadsBack(obj: string, i: nat, v: nat)
    requires v < 0x10000 && i + 4 <= |obj| && obj[i..i + 4] == Hex4Text(v)
    ensures Hex4At(obj, i) == Some(v)
  {
    var t := Hex4Text(v);
    assert obj[i] == t[0] && obj[i + 1] == t[1] && obj[i + 2] == t[2] && obj[i + 3] == t[3];
    Hex4Split(v, v / 4096, (v / 256) % 16, (v / 16) % 16, v % 16);
  }

  /** The four hexadecimal digits of a code unit put it back together. */
  lemma Hex4Split(v: nat, a: nat, b: nat, c: nat, d: nat)
    requires v < 0x10000 && a == v / 4096 && b == (v / 256) % 16 && c == (v / 16) % 16 && d == v % 16
    ensures v == a * 4096 + b * 256 + c * 16 + d
  {
    var r1 := v % 4096;
    assert v == a * 4096 + r1;
    assert v / 256 == a * 16 + r1 / 256;
    assert b == r1 / 256;
    var r2 := r1 % 256;
    assert r1 == b * 256 + r2;
    assert v / 16 == a * 256 + b * 16 + r2 / 16;
    assert c == r2 / 16;
    assert d == r2 % 16;
  }

  /** `\uXXXX` of one code unit. */
  function UnitEscape(v: nat): string
    requires v < 0x10000
  {
    "\\u" + Hex4Text(v)
  }

  /**
   * A `\uXXXX` escape that is not the first half of a pair is decoded to the
   * UTF-8 of its code unit, or to U+FFFD when the unit is a surrogate. The
   * decoder insists on one more byte after the escape.
   */
  lemma UnitEscapeDecodes(obj: string, pos: nat, v: nat)
    requires v < 0x10000 && pos + 6 < |obj| && obj[pos..pos + 6] == UnitEscape(v)
    requires IsHighSurrogate(v) ==> obj[pos + 6] != '\\'
    ensures StringFrom(obj, pos, false)
         == Prepend(Utf8(if IsSurrogate(v) then 0xFFFD else v), StringFrom(obj, pos + 6, false))
  {
    UnitEscapeAt(obj, pos, v);
    UnitEscapeValue(obj, pos + 1, v);
    BackslashStep(obj, pos);
  }

  /** A backslash outside an escape hands the next byte to `EscapeAt`. */
  lemma BackslashStep(obj: string, pos: nat)
    requires pos + 1 < |obj| && obj[pos] == '\\'
    ensures StringFrom(obj, pos, false)
         == Prepend(EscapeAt(obj, pos + 1).bytes, StringFrom(obj, EscapeAt(obj, pos + 1).last + 1, false))
  {
    assert StringFrom(obj, pos, false) == StringFrom(obj, pos + 1, true);
  }

  /** A `\uXXXX` escape that does not start a pair decodes to its code unit, or to U+FFFD for a surrogate. */
  lemma UnitEscapeValue(obj: string, u: nat, v: nat)
    requires u + 5 < |obj| && obj[u] == 'u' && Hex4At(obj, u + 1) == Some(v)
    requires IsHighSurrogate(v) ==> obj[u + 5] != '\\'
    ensures EscapeAt(obj, u) == Unescaped(Utf8(if IsSurrogate(v) then 0xFFFD else v), u + 4)
  {
    EscapeAtU(obj, u);
  }

  /**
   * A supplementary code point written as a surrogate pair of escapes is
   * decoded to its four-byte UTF-8 form.
   */
  lemma SurrogatePairDecodes(obj: string, pos: nat, cp: nat)
    requires 0x10000 <= cp <= 0x10FFFF
    requires pos + 12 <= |obj|
    requires obj[pos..pos + 6] == UnitEscape(HighSurrogate(cp))
    requires obj[pos + 6..pos + 12] == UnitEscape(LowSurrogate(cp))
    ensures StringFrom(obj, pos, false) == Prepend(Utf8(cp), StringFrom(obj, pos + 12, false))
  {
    SurrogatePairBijection(cp, 0xD800, 0xDC00);
    PairDecodes(obj, pos, HighSurrogate(cp), LowSurrogate(cp));
  }

  lemma PairDecodes(obj: string, pos: nat, hi: nat, lo: nat)
    requires IsHighSurrogate(hi) && IsLowSurrogate(lo) && pos + 12 <= |obj|
    requires obj[pos..pos + 6] == UnitEscape(hi) && obj[pos + 6..pos + 12] == UnitEscape(lo)
    ensures StringFrom(obj, pos, false)
         == Prepend(Utf8(CombineSurrogates(hi, lo)), StringFrom(obj, pos + 12, false))
  {
    UnitEscapeAt(obj, pos, hi);
    UnitEscapeAt(obj, pos + 6, lo);
    PairEscape(obj, pos + 1, hi, lo);
    EscapeAtU(obj, pos + 1);
  }

  lemma EscapeAtU(obj: string, i: nat)
    requires i < |obj| && obj[i] == 'u'
    ensures EscapeAt(obj, i) == UnicodeEscape(obj, i)
  {
  }

  /** The bytes of a `\uXXXX` escape at `i`. */
  lemma UnitEscapeAt(obj: string, i: nat, v: nat)
    requires v < 0x10000 && i + 6 <= |obj| && obj[i..i + 6] == UnitEscape(v)
    ensures obj[i] == '\\' && obj[i + 1] == 'u' && Hex4At(obj, i + 2) == Some(v)
  {
    var w := obj[i..i + 6];
    assert obj[i] == w[0] && obj[i + 1] == w[1];
    assert obj[i + 2..i + 6] == w[2..];
    Hex4TextReadsBack(obj, i + 2, v);
  }

  lemma PairEscape(obj: string, u: nat, hi: nat, lo: nat)
    requires u + 11 <= |obj| && obj[u] == 'u' && obj[u + 5] == '\\' && obj[u + 6] == 'u'
    requires IsHighSurrogate(hi) && IsLowSurrogate(lo)
    requires Hex4At(obj, u + 1) == Some(hi) && Hex4At(obj, u + 7) == Some(lo)
    ensures UnicodeEscape(obj, u) == Unescaped(Utf8(CombineSurrogates(hi, lo)), u + 10)
  {
    assert LowUnitAt(obj, u + 7) == lo;
  }

  // ---------------------------------------------------------------------------
  // Round trip with a JSON string writer
  // ---------------------------------------------------------------------------

  /**
   * How a JSON writer escapes one byte inside a string (RFC 8259 section 7):
   * quote and backslash are escaped, the control bytes with a short form use
   * it, the other control bytes are written as `\u00XX`.
   */
  function EscapeChar(c: char): string {
    if c == '"' then "\\\""
    else if c == '\\' then "\\\\"
    else if c == 8 as char then "\\b"
    else if c == 12 as char then "\\f"
    else if c == '\n' then "\\n"
    else if c == '\r' then "\\r"
    else if c == '\t' then "\\t"
    else if (c as int) < 0x20 then UnitEscape(c as int)
    else [c]
  }

  function EscapeString(s: string): string {
    if s == [] then [] else EscapeChar(s[0]) + EscapeString(s[1..])
  }

  lemma EscapeCharDecodes(obj: string, pos: nat, c: char)
    requires pos + |EscapeChar(c)| < |obj| && obj[pos..pos + |EscapeChar(c)|] == EscapeChar(c)
    ensures StringFrom(obj, pos, false) == Prepend([c], StringFrom(obj, pos + |EscapeChar(c)|, false))
  {
    var e := EscapeChar(c);
    assert obj[pos] == e[0];
    if |e| == 2 {
      assert obj[pos + 1] == e[1];
    } else if |e| == 6 {
      UnitEscapeDecodes(obj, pos, c as int);
      assert Utf8(c as int) == [c];
    }
  }

  lemma DecodesInSequence(obj: string, p0: nat, p1: nat, p2: nat, c: char, r: string, s: string)
    requires StringFrom(obj, p0, false) == Prepend([c], StringFrom(obj, p1, false))
    requires StringFrom(obj, p1, false) == Prepend(r, StringFrom(obj, p2, false))
    requires s != [] && c == s[0] && r == s[1..]
    ensures StringFrom(obj, p0, false) == Prepend(s, StringFrom(obj, p2, false))
  {
    PrependTwice([c], r, StringFrom(obj, p2, false));
    assert [c] + r == s;
  }

  /**
   * Whatever bytes a writer escaped are read back unchanged, up to the
   * closing quote that follows them.
   */
  lemma {:induction false} EscapedRunDecodes(obj: string, pos: nat, end: nat, s: string)
    requires pos <= end < |obj| && obj[pos..end] == EscapeString(s)
    ensures StringFrom(obj, pos, false) == Prepend(s, StringFrom(obj, end, false))
    decreases |s|
  {
    if s != [] {
      var mid := EscapeHeadSplit(obj, pos, end, s);
      EscapedRunDecodes(obj, mid, end, s[1..]);
      EscapeCharDecodes(obj, pos, s[0]);
      DecodesInSequence(obj, pos, mid, end, s[0], s[1..], s);
    } else {
      EscapedNothing(obj, pos, end);
    }
  }

  /** The escaped run splits into the escape of its first byte and the escape of the rest. */
  lemma EscapeHeadSplit(obj: string, pos: nat, end: nat, s: string) returns (mid: nat)
    requires s != [] && pos <= end <= |obj| && obj[pos..end] == EscapeString(s)
    ensures mid == pos + |EscapeChar(s[0])| <= end
    ensures obj[pos..mid] == EscapeChar(s[0]) && obj[mid..end] == EscapeString(s[1..])
  {
    var e := EscapeChar(s[0]);
    var t := EscapeString(s[1..]);
    assert EscapeString(s) == e + t;
    mid := pos + |e|;
    SplitSlice(obj, pos, mid, end, e, t);
  }

  lemma EscapedNothing(obj: string, pos: nat, end: nat)
    requires pos <= end <= |obj| && obj[pos..end] == EscapeString([])
    ensures StringFrom(obj, pos, false) == Prepend([], StringFrom(obj, end, false))
  {
    PrependEmpty(StringFrom(obj, pos, false));
  }

  /** A whole JSON string literal written by the writer is read back as the bytes written. */
  lemma StringRoundTrip(s: string, rest: string)
    ensures StringFrom(EscapeString(s) + "\"" + rest, 0, false) == Some(s)
  {
    var obj := EscapeString(s) + "\"" + rest;
    assert obj[0..|EscapeString(s)|] == EscapeString(s);
    EscapedRunDecodes(obj, 0, |EscapeString(s)|, s);
    assert obj[|EscapeString(s)|] == '"';
    assert StringFrom(obj, |EscapeString(s)|, false) == Some([]);
    assert s + [] == s;
  }
}

/**
 * The JSON helpers of the Dispatcharr DVR client (dispatcharr_client.cpp),
 * simpler copies of the Xtream ones: an array walker that stops at the
 * array's closing bracket, a boolean reader without the quoted digits, a
 * string reader that only knows the escapes `\" \\ \n \r \t`, a raw value
 * extractor that matches brackets by counting, the `JsonEscape` writer and
 * the `days_of_week` digit scan of `FetchRecurringRules`.
 *
 * `FindKeyPos`, `ParseIntAt` and `ExtractIntField` of this file read
 * exactly as the Xtream ones do, and the model uses `JsonFields` for them.
 */
module DvrJson {
  import opened Text
  import opened JsonSpans
  import opened JsonFields

  // ---------------------------------------------------------------------------
  // ForEachObjectInArray
  // ---------------------------------------------------------------------------

  /**
   * Where the walk ends: the first `]` met outside strings at depth 0 from
   * byte `i` on, given the state before byte `i`, or the end of the body.
   */
  function ArrayEnd(json: string, i: nat, l: Lex): (e: nat)
    requires i <= |json|
    ensures i <= e <= |json|
    decreases |json| - i
  {
    if i == |json| then i
    else if !l.inString && l.depth == 0 && json[i] == ']' then i
    else ArrayEnd(json, i + 1, LexStep(l, json[i]))
  }

  /** The objects handed to the callback from byte `i` on, given the state before byte `i`. */
  function ArraySpansFrom(json: string, i: nat, l: Lex, objStart: Option<nat>): seq<Span>
    requires i <= |json|
    decreases |json| - i
  {
    if i == |json| then []
    else
      var c := json[i];
      var l' := LexStep(l, c);
      if !l.inString && l.depth == 0 && c == ']' then []
      else if !l.inString && c == '{' then
        ArraySpansFrom(json, i + 1, l', if l.depth == 0 then Some(i) else objStart)
      else if !l.inString && c == '}' && l'.depth == 0 && objStart.Some? then
        [Span(objStart.value, i + 1)] + ArraySpansFrom(json, i + 1, l', None)
      else
        ArraySpansFrom(json, i + 1, l', objStart)
  }

  /** Every object the walk hands to the callback (none when the body is not an array). */
  function ArraySpans(json: string): seq<Span> {
    if IsArrayBody(json) then ArraySpansFrom(json, SkipSpaces(json, 0), Outside, None) else []
  }

  /**
   * `ForEachObjectInArray`: returns the function's result, false only when
   * the first non-space byte is not `[`, and the ranges handed to the
   * callback, in order.
   */
  method ForEachObjectInArray(json: string) returns (isArray: bool, spans: seq<Span>)
    ensures isArray == IsArrayBody(json)
    ensures spans == ArraySpans(json)
  {
    var n := |json|;
    var i := 0;
    while i < n && IsSpace(json[i])
      invariant 0 <= i <= n
      invariant SkipSpaces(json, i) == SkipSpaces(json, 0)
    {
      i := i + 1;
    }
    if i >= n || json[i] != '[' {
      return false, [];
    }
    var l := Outside;
    var objStart: Option<nat> := None;
    spans := [];
    while i < n
      invariant 0 <= i <= n
      invariant spans + ArraySpansFrom(json, i, l, objStart) == ArraySpans(json)
    {
      if !l.inString && l.depth == 0 && json[i] == ']' {
        assert spans == ArraySpans(json);
        break;
      }
      l, objStart, spans := ArrayStep(json, i, l, objStart, spans);
      i := i + 1;
    }
    return true, spans;
  }

  /**
   * One byte of the walk: the string and escape flags, the depth, the start
   * of the open object, and the span handed to the callback when it closes.
   */
  method ArrayStep(json: string, i: nat, l: Lex, objStart: Option<nat>, spans: seq<Span>)
    returns (l': Lex, objStart': Option<nat>, spans': seq<Span>)
    requires i < |json| && !(!l.inString && l.depth == 0 && json[i] == ']')
    ensures spans' + ArraySpansFrom(json, i + 1, l', objStart') == spans + ArraySpansFrom(json, i, l, objStart)
  {
    var c := json[i];
    var inString, escape, depth := l.inString, l.escape, l.depth;
    objStart', spans' := objStart, spans;
    if inString {
      if escape {
        escape := false;
      } else if c == '\\' {
        escape := true;
      } else if c == '"' {
        inString := false;
      }
    } else if c == '"' {
      inString := true;
    } else if c == '{' {
      if depth == 0 {
        objStart' := Some(i);
      }
      depth := depth + 1;
    } else if c == '}' {
      depth := depth - 1;
      if depth == 0 && objStart.Some? {
        spans' := spans + [Span(objStart.value, i + 1)];
        objStart' := None;
      }
    }
    l' := Lex(inString, escape, depth);
  }

  /**
   * The walk reports what the Xtream walker reports for the body cut at the
   * array's closing bracket: the two differ only in where they stop.
   */
  lemma {:induction false} ArrayScanIsCutScan(json: string, i: nat, l: Lex, objStart: Option<nat>)
    requires i <= |json|
    ensures ArraySpansFrom(json, i, l, objStart) == SpansFrom(json[..ArrayEnd(json, i, l)], i, l, objStart)
    decreases |json| - i
  {
    var e := ArrayEnd(json, i, l);
    var cut := json[..e];
    if i < |json| && !(!l.inString && l.depth == 0 && json[i] == ']') {
      var c := json[i];
      var l' := LexStep(l, c);
      ArrayScanIsCutScan(json, i + 1, l', NextStart(json, i, l, objStart));
      assert ArrayEnd(json, i + 1, l') == e;
      assert cut[i] == c;
    }
  }

  /** Slices inside a prefix of the body are slices of the body. */
  lemma GoodSpansOfPrefix(json: string, e: nat, lo: nat, spans: seq<Span>)
    requires e <= |json| && GoodSpans(json[..e], lo, spans)
    ensures GoodSpans(json, lo, spans)
  {
    forall j | 0 <= j < |spans|
      ensures json[spans[j].start..spans[j].end] == json[..e][spans[j].start..spans[j].end]
    {
    }
  }

  /**
   * Every object the walk reports lies after the opening `[`, is one
   * balanced object (braces inside string literals not counted), and the
   * objects come in order without overlapping.
   */
  lemma ArraySpansAreObjects(json: string)
    ensures GoodSpans(json, SkipSpaces(json, 0) + 1, ArraySpans(json))
  {
    if IsArrayBody(json) {
      var i0 := SkipSpaces(json, 0);
      var e := ArrayEnd(json, i0, Outside);
      ArrayScanIsCutScan(json, i0, Outside, None);
      SpansFromGood(json[..e], i0, Outside, None);
      GoodSpansOfPrefix(json, e, i0, ArraySpans(json));
      var sp := ArraySpans(json);
      forall j | 0 <= j < |sp| ensures sp[j].start != i0 {
        assert json[sp[j].start..sp[j].end][0] == json[sp[j].start];
      }
    }
  }

  /**
   * An empty array is still an array (the Xtream walker reports it as
   * "nothing found"), and the walk stops at the array's `]`: an object after
   * it is not reported, although the Xtream walker would report it.
   */
  lemma StopsAtClosingBracket()
    ensures IsArrayBody("[]") && ArraySpans("[]") == []
    ensures ArraySpans("[{}]{}") == [Span(1, 3)]
    ensures TopLevelSpans("[{}]{}") == [Span(1, 3), Span(4, 6)]
  {
    assert SkipSpaces("[]", 0) == 0;
    assert SkipSpaces("[{}]{}", 0) == 0;
  }

  // ---------------------------------------------------------------------------
  // ExtractBoolField
  // ---------------------------------------------------------------------------

  /** The value tests of this file's `ExtractBoolField`: `true`, `false`, `1` or `0`. */
  function FlagAt(obj: string, pos: nat): (r: Option<bool>)
    ensures r.Some? ==> SkipSpaces(obj, pos) < |obj|
    ensures r.Some? ==> (r.value <==> obj[SkipSpaces(obj, pos)] in {'t', '1'})
    ensures r.Some? ==> obj[SkipSpaces(obj, pos)] in {'t', 'f', '1', '0'}
  {
    var p := SkipSpaces(obj, pos);
    if p >= |obj| then None
    else if Substr(obj, p, 4) == "true" then Some(true)
    else if Substr(obj, p, 5) == "false" then Some(false)
    else if obj[p] == '1' then Some(true)
    else if obj[p] == '0' then Some(false)
    else None
  }

  /** This file's `ExtractBoolField`. */
  function FlagField(obj: string, key: string): Option<bool> {
    match ValueStart(obj, key)
    case None => None
    case Some(p) => FlagAt(obj, p)
  }

  /** The literal and the bare digit forms are read back as the flag they stand for. */
  lemma FlagAtReadsBack(obj: string, pos: nat, q: nat, b: bool, form: BoolForm)
    requires form != QuotedDigit
    requires pos <= q <= |obj| && AllSpace(obj[pos..q])
    requires StartsWith(obj[q..], BoolText(b, form))
    ensures FlagAt(obj, pos) == Some(b)
  {
    var t := BoolText(b, form);
    assert forall k :: 0 <= k < |t| ==> obj[q + k] == obj[q..][k] == t[k];
    SkipOverSpaces(obj, pos, q);
    if form == Literal {
      assert obj[q..q + |t|] == t;
      if !b {
        assert Substr(obj, q, 4) != "true" by {
          assert Substr(obj, q, 4)[0] == obj[q] == 'f';
        }
      }
    } else {
      assert Substr(obj, q, 4) != "true" && Substr(obj, q, 5) != "false" by {
        assert Substr(obj, q, 4)[0] == obj[q] && Substr(obj, q, 5)[0] == obj[q];
      }
    }
  }

  /**
   * Unlike the Xtream reader, a flag written as a quoted digit is not read:
   * `"enabled":"1"` leaves the rule's default in place.
   */
  lemma QuotedDigitNotRead()
    ensures FlagAt("\"1\"", 0) == None && BoolAt("\"1\"", 0) == Some(true)
  {
  }

  // ---------------------------------------------------------------------------
  // ExtractStringField
  // ---------------------------------------------------------------------------

  /** The byte a backslash escape stands for: `n`, `r`, `t` decoded, any other byte kept. */
  function Unescape(c: char): (r: char)
    ensures c !in {'n', 'r', 't'} ==> r == c
  {
    if c == 'n' then '\n' else if c == 'r' then '\r' else if c == 't' then '\t' else c
  }

  /**
   * The string value read from `pos` to the closing quote, `escape` telling
   * whether the previous byte was a backslash; `None` when the text ends first.
   */
  function TextFrom(obj: string, pos: nat, escape: bool): Option<string>
    decreases |obj| - pos
  {
    if pos >= |obj| then None
    else if escape then Prepend([Unescape(obj[pos])], TextFrom(obj, pos + 1, false))
    else if obj[pos] == '\\' then TextFrom(obj, pos + 1, true)
    else if obj[pos] == '"' then Some([])
    else Prepend([obj[pos]], TextFrom(obj, pos + 1, false))
  }

  /** The value this file's `ExtractStringField` yields. */
  function TextField(obj: string, key: string): Option<string> {
    match ValueStart(obj, key)
    case None => None
    case Some(p) =>
      var q := SkipSpaces(obj, p);
      if q >= |obj| || obj[q] != '"' then None else TextFrom(obj, q + 1, false)
  }

  /** This file's `ExtractStringField`: whether a string value was found, and its bytes. */
  method ExtractStringField(obj: string, key: string) returns (ok: bool, out: string)
    ensures ok == TextField(obj, key).Some?
    ensures ok ==> out == TextField(obj, key).value
  {
    var vs := ValueStart(obj, key);
    if vs.None? {
      return false, "";
    }
    var pos := vs.value;
    while pos < |obj| && IsSpace(obj[pos])
      invariant vs.value <= pos
      invariant SkipSpaces(obj, pos) == SkipSpaces(obj, vs.value)
    {
      pos := pos + 1;
    }
    if pos >= |obj| || obj[pos] != '"' {
      return false, "";
    }
    pos := pos + 1;
    ghost var start := pos;
    var s := "";
    var escape2 := false;
    PrependEmpty(TextFrom(obj, pos, false));
    while pos < |obj|
      invariant start <= pos <= |obj|
      invariant Prepend(s, TextFrom(obj, pos, escape2)) == TextFrom(obj, start, false)
    {
      var c := obj[pos];
      if escape2 {
        var d := c;
        if c == 'n' {
          d := '\n';
        } else if c == 'r' {
          d := '\r';
        } else if c == 't' {
          d := '\t';
        }
        PrependTwice(s, [d], TextFrom(obj, pos + 1, false));
        s := s + [d];
        escape2 := false;
      } else if c == '\\' {
        escape2 := true;
      } else if c == '"' {
        return true, s;
      } else {
        PrependTwice(s, [c], TextFrom(obj, pos + 1, false));
        s := s + [c];
      }
      pos := pos + 1;
    }
    return false, "";
  }

  // ---------------------------------------------------------------------------
  // JsonEscape
  // ---------------------------------------------------------------------------

  /** How `JsonEscape` writes one byte: seven bytes get a backslash form, the rest are copied. */
  function EscapeByte(c: char): (r: string)
    ensures 1 <= |r| <= 2
    ensures |r| == 2 <==> c in {'"', '\\', 8 as char, 12 as char, '\n', '\r', '\t'}
    ensures |r| == 2 ==> r[0] == '\\'
  {
    if c == '"' then "\\\""
    else if c == '\\' then "\\\\"
    else if c == 8 as char then "\\b"
    else if c == 12 as char then "\\f"
    else if c == '\n' then "\\n"
    else if c == '\r' then "\\r"
    else if c == '\t' then "\\t"
    else [c]
  }

  /** What `JsonEscape` returns. */
  function Escaped(s: string): (r: string)
    ensures |s| <= |r| <= 2 * |s|
  {
    if s == [] then [] else EscapeByte(s[0]) + Escaped(s[1..])
  }

  lemma {:induction false} EscapedSnoc(s: string, c: char)
    ensures Escaped(s + [c]) == Escaped(s) + EscapeByte(c)
    decreases |s|
  {
    if s == [] {
      assert [] + [c] == [c];
      assert Escaped([c]) == EscapeByte(c) + Escaped([]);
    } else {
      assert (s + [c])[0] == s[0] && (s + [c])[1..] == s[1..] + [c];
      EscapedSnoc(s[1..], c);
    }
  }

  /** `JsonEscape`: appends each byte's escaped form. */
  method JsonEscape(input: string) returns (output: string)
    ensures output == Escaped(input)
  {
    output := "";
    var i := 0;
    while i < |input|
      invariant 0 <= i <= |input|
      invariant output == Escaped(input[..i])
    {
      var c := input[i];
      assert input[..i + 1] == input[..i] + [c];
      EscapedSnoc(input[..i], c);
      if c == '"' {
        output := output + "\\\"";
      } else if c == '\\' {
        output := output + "\\\\";
      } else if c == 8 as char {
        output := output + "\\b";
      } else if c == 12 as char {
        output := output + "\\f";
      } else if c == '\n' {
        output := output + "\\n";
      } else if c == '\r' {
        output := output + "\\r";
      } else if c == '\t' {
        output := output + "\\t";
      } else {
        output := output + [c];
      }
      i := i + 1;
    }
    assert input[..i] == input;
  }

  /** No backspace and no form feed: the bytes whose escapes the reader does not decode. */
  predicate ReadableEscapes(s: string) {
    forall k :: 0 <= k < |s| ==> s[k] != 8 as char && s[k] != 12 as char
  }

  lemma EscapeByteDecodes(obj: string, pos: nat, c: char)
    requires c != 8 as char && c != 12 as char
    requires pos + |EscapeByte(c)| <= |obj| && obj[pos..pos + |EscapeByte(c)|] == EscapeByte(c)
    ensures TextFrom(obj, pos, false) == Prepend([c], TextFrom(obj, pos + |EscapeByte(c)|, false))
  {
    var e := EscapeByte(c);
    assert obj[pos] == e[0];
    if |e| == 2 {
      assert obj[pos + 1] == e[1];
    }
  }

  /** Escaped bytes are read back unchanged, up to what follows them. */
  lemma {:induction false} EscapedDecodes(obj: string, pos: nat, end: nat, s: string)
    requires ReadableEscapes(s)
    requires pos <= end <= |obj| && obj[pos..end] == Escaped(s)
    ensures TextFrom(obj, pos, false) == Prepend(s, TextFrom(obj, end, false))
    decreases |s|
  {
    if s == [] {
      PrependEmpty(TextFrom(obj, pos, false));
    } else {
      var mid := EscapedHeadSplit(obj, pos, end, s);
      EscapedDecodes(obj, mid, end, s[1..]);
      EscapeByteDecodes(obj, pos, s[0]);
      TextInSequence(obj, pos, mid, end, s[0], s[1..], s);
    }
  }

  /** The escaped run splits into the escape of its first byte and the escape of the rest. */
  lemma EscapedHeadSplit(obj: string, pos: nat, end: nat, s: string) returns (mid: nat)
    requires s != [] && pos <= end <= |obj| && obj[pos..end] == Escaped(s)
    ensures mid == pos + |EscapeByte(s[0])| <= end
    ensures obj[pos..mid] == EscapeByte(s[0]) && obj[mid..end] == Escaped(s[1..])
  {
    var e := EscapeByte(s[0]);
    var t := Escaped(s[1..]);
    assert Escaped(s) == e + t;
    mid := pos + |e|;
    SplitSlice(obj, pos, mid, end, e, t);
  }

  lemma TextInSequence(obj: string, p0: nat, p1: nat, p2: nat, c: char, r: string, s: string)
    requires TextFrom(obj, p0, false) == Prepend([c], TextFrom(obj, p1, false))
    requires TextFrom(obj, p1, false) == Prepend(r, TextFrom(obj, p2, false))
    requires s != [] && c == s[0] && r == s[1..]
    ensures TextFrom(obj, p0, false) == Prepend(s, TextFrom(obj, p2, false))
  {
    PrependTwice([c], r, TextFrom(obj, p2, false));
    assert [c] + r == s;
  }

  /**
   * A string written by `JsonEscape` and closed by a quote is read back by
   * this file's string reader as the original, provided it holds no
   * backspace or form feed.
   */
  lemma EscapeRoundTrip(s: string, rest: string)
    requires ReadableEscapes(s)
    ensures TextFrom(Escaped(s) + "\"" + rest, 0, false) == Some(s)
  {
    var obj := Escaped(s) + "\"" + rest;
    assert obj[0..|Escaped(s)|] == Escaped(s);
    EscapedDecodes(obj, 0, |Escaped(s)|, s);
    assert obj[|Escaped(s)|] == '"';
    assert s + [] == s;
  }

  /** The quoted value written at `p`: a quote, the escaped bytes, a closing quote. */
  lemma QuotedValueAt(obj: string, p: nat, t: string)
    requires ReadableEscapes(t)
    requires p + |Escaped(t)| + 1 < |obj| && obj[p] == '"'
    requires obj[p + 1..p + 1 + |Escaped(t)|] == Escaped(t)
    requires obj[p + 1 + |Escaped(t)|] == '"'
    ensures SkipSpaces(obj, p) == p && TextFrom(obj, p + 1, false) == Some(t)
  {
    EscapedDecodes(obj, p + 1, p + 1 + |Escaped(t)|, t);
    assert TextFrom(obj, p + 1 + |Escaped(t)|, false) == Some([]);
    assert t + [] == t;
  }

  /** Where the pieces of `pre + "key" + ":\"" + text + "\""` sit in a text that starts with it. */
  lemma QuotedLayout(obj: string, pre: string, key: string, text: string, p: nat)
    requires StartsWith(obj, pre + KeyNeedle(key) + ":\"" + text + "\"")
    requires p == |pre| + |key| + 3
    ensures StartsWith(obj, pre + KeyNeedle(key) + ":")
    ensures p + |text| + 1 < |obj| && obj[p] == '"'
    ensures obj[p + 1..p + 1 + |text|] == text && obj[p + 1 + |text|] == '"'
  {
    var p1 := pre + KeyNeedle(key) + ":";
    var p2 := p1 + "\"";
    var p3 := p2 + text;
    assert pre + KeyNeedle(key) + ":\"" == p2;
    StartsWithConcat(obj, p3, "\"");
    assert obj[|p3|..][0] == '"';
    StartsWithConcat(obj, p2, text);
    assert obj[|p2|..][..|text|] == obj[|p2|..|p2| + |text|];
    StartsWithConcat(obj, p1, "\"");
    assert obj[|p1|..][0] == '"';
  }

  /**
   * A string value a writer put as `"key":"<escaped text>"` at the first
   * mention of the key is read back as the text, when the key holds no
   * colon and the text no backspace or form feed.
   */
  lemma TextFieldReadsBack(obj: string, pre: string, key: string, t: string)
    requires ReadableEscapes(t)
    requires forall k :: 0 <= k < |key| ==> key[k] != ':'
    requires StartsWith(obj, pre + KeyNeedle(key) + ":\"" + Escaped(t) + "\"")
    requires forall k :: 0 <= k < |pre| ==> !OccursAt(obj, KeyNeedle(key), k)
    ensures TextField(obj, key) == Some(t)
  {
    var e := Escaped(t);
    var p := |pre| + |key| + 3;
    QuotedLayout(obj, pre, key, e, p);
    ValueStartOfWrittenField(obj, pre, key);
    TextFieldOfLayout(obj, key, p, t, e);
  }

  /** The quoted, escaped text at the value's start is the field's value. */
  lemma TextFieldOfLayout(obj: string, key: string, p: nat, t: string, e: string)
    requires ReadableEscapes(t) && e == Escaped(t) && ValueStart(obj, key) == Some(p)
    requires p + |e| + 1 < |obj| && obj[p] == '"'
    requires obj[p + 1..p + 1 + |e|] == e && obj[p + 1 + |e|] == '"'
    ensures TextField(obj, key) == Some(t)
  {
    QuotedValueAt(obj, p, t);
    TextFieldAt(obj, key, p);
  }

  lemma TextFieldAt(obj: string, key: string, v: nat)
    requires ValueStart(obj, key) == Some(v) && v < |obj| && obj[v] == '"' && SkipSpaces(obj, v) == v
    ensures TextField(obj, key) == TextFrom(obj, v + 1, false)
  {
    var q := SkipSpaces(obj, v);
    assert q + 1 == v + 1;
  }

  /** A backspace is written as `\b`, which the reader turns into a plain `b`. */
  lemma BackspaceReadsAsB()
    ensures Escaped([8 as char]) == "\\b"
    ensures TextFrom(Escaped([8 as char]) + "\"", 0, false) == Some("b")
  {
    assert Escaped([8 as char]) == EscapeByte(8 as char) + Escaped([]);
    var obj := "\\b\"";
    assert Escaped([8 as char]) + "\"" == obj;
    assert TextFrom(obj, 2, false) == Some([]);
    assert ['b'] + [] == "b";
    assert TextFrom(obj, 1, true) == Prepend([Unescape('b')], Some([])) == Some("b");
    assert TextFrom(obj, 0, false) == TextFrom(obj, 1, true);
  }


  // ---------------------------------------------------------------------------
  // ExtractRawJsonField
  // ---------------------------------------------------------------------------

  /** The bracket that closes `open`: `]` for `[`, `}` for anything else. */
  function CloseOf(open: char): char { if open == '[' then ']' else '}' }

  /** The bracket depth of `t`: its `open` bytes less its `close` bytes, strings not considered. */
  function BracketDepth(t: string, open: char, close: char): int
    decreases |t|
  {
    if t == [] then 0
    else
      var d := BracketDepth(t[..|t| - 1], open, close);
      var c := t[|t| - 1];
      if c == open then d + 1 else if c == close then d - 1 else d
  }

  /**
   * `t` is one bracketed value as the extractor counts: it opens with
   * `open`, ends with the matching `close` that brings the count back to 0,
   * and the count stays positive on every non-empty proper prefix.
   */
  predicate Bracketed(t: string, open: char) {
    |t| >= 2 && t[0] == open && t[|t| - 1] == CloseOf(open) && BracketDepth(t, open, CloseOf(open)) == 0
    && forall k :: 1 <= k < |t| ==> BracketDepth(t[..k], open, CloseOf(open)) >= 1
  }

  /**
   * The counting loop from byte `pos` on with count `depth`: the index
   * just past the `close` that brings the count to 0, if there is one.
   */
  function MatchEnd(obj: string, pos: nat, depth: int, open: char, close: char): Option<nat>
    requires pos <= |obj|
    decreases |obj| - pos
  {
    if pos == |obj| then None
    else if obj[pos] == open then MatchEnd(obj, pos + 1, depth + 1, open, close)
    else if obj[pos] == close then
      if depth - 1 == 0 then Some(pos + 1) else MatchEnd(obj, pos + 1, depth - 1, open, close)
    else MatchEnd(obj, pos + 1, depth, open, close)
  }

  /** The raw value at `p` (just after the colon): `[...]` or `{...}` by bracket counting. */
  function RawAt(obj: string, p: nat): (r: Option<string>)
    ensures r.Some? ==> |r.value| >= 2 && r.value[0] in {'[', '{'} && Bracketed(r.value, r.value[0])
    ensures r.Some? ==> var q := SkipSpaces(obj, p);
                        q + |r.value| <= |obj| && r.value == obj[q..q + |r.value|]
    ensures r.None? && SkipSpaces(obj, p) < |obj| && obj[SkipSpaces(obj, p)] in {'[', '{'} ==>
              var q := SkipSpaces(obj, p);
              forall k :: q < k <= |obj| ==> BracketDepth(obj[q..k], obj[q], CloseOf(obj[q])) >= 1
  {
    var q := SkipSpaces(obj, p);
    if q >= |obj| then None
    else
      var open := obj[q];
      if open != '[' && open != '{' then None
      else
        MatchEndMeaning(obj, q, q, open);
        match MatchEnd(obj, q, 0, open, CloseOf(open))
        case None => None
        case Some(e) => Some(obj[q..e])
  }

  /** `ExtractRawJsonField`. */
  function RawField(obj: string, key: string): Option<string> {
    match ValueStart(obj, key)
    case None => None
    case Some(p) => RawAt(obj, p)
  }

  lemma DepthSnoc(obj: string, s: nat, i: nat, open: char, close: char)
    requires s <= i < |obj|
    ensures BracketDepth(obj[s..i + 1], open, close) ==
            var d := BracketDepth(obj[s..i], open, close);
            if obj[i] == open then d + 1 else if obj[i] == close then d - 1 else d
  {
    assert obj[s..i + 1][..i - s] == obj[s..i];
  }

  /**
   * From a state where the count so far is `BracketDepth(obj[q..pos])` and
   * has stayed positive, the loop ends exactly where a prefix first
   * balances, and finds nothing when none does.
   */
  lemma {:induction false} MatchEndMeaning(obj: string, q: nat, pos: nat, open: char)
    requires q < |obj| && obj[q] == open && (open == '[' || open == '{') && q <= pos <= |obj|
    requires forall k :: q < k <= pos ==> BracketDepth(obj[q..k], open, CloseOf(open)) >= 1
    ensures var depth := BracketDepth(obj[q..pos], open, CloseOf(open));
            var r := MatchEnd(obj, pos, depth, open, CloseOf(open));
            (r.Some? ==> pos < r.value <= |obj| && Bracketed(obj[q..r.value], open))
            && (r.None? ==> forall k :: q < k <= |obj| ==> BracketDepth(obj[q..k], open, CloseOf(open)) >= 1)
    decreases |obj| - pos
  {
    var close := CloseOf(open);
    var depth := BracketDepth(obj[q..pos], open, close);
    if pos < |obj| {
      DepthSnoc(obj, q, pos, open, close);
      var d' := BracketDepth(obj[q..pos + 1], open, close);
      if pos == q {
        assert obj[q..q] == [];
      }
      if obj[pos] == close && depth - 1 == 0 {
        var t := obj[q..pos + 1];
        assert t[..|t|] == t;
        forall k | 1 <= k < |t| ensures BracketDepth(t[..k], open, close) >= 1 {
          assert t[..k] == obj[q..q + k];
        }
      } else {
        if pos == q {
          assert d' == 1;
        } else {
          assert d' >= 1;
        }
        MatchEndMeaning(obj, q, pos + 1, open);
      }
    }
  }

  /** `ExtractRawJsonField`: whether a bracketed value was found, and its text. */
  method ExtractRawJsonField(obj: string, key: string) returns (ok: bool, out: string)
    ensures ok == RawField(obj, key).Some?
    ensures ok ==> out == RawField(obj, key).value
  {
    var vs := ValueStart(obj, key);
    if vs.None? {
      return false, "";
    }
    var pos := vs.value;
    while pos < |obj| && IsSpace(obj[pos])
      invariant vs.value <= pos
      invariant SkipSpaces(obj, pos) == SkipSpaces(obj, vs.value)
    {
      pos := pos + 1;
    }
    if pos >= |obj| {
      return false, "";
    }
    var openChar := obj[pos];
    var closeChar := if openChar == '[' then ']' else '}';
    if openChar != '[' && openChar != '{' {
      return false, "";
    }
    var depth := 0;
    var start := pos;
    while pos < |obj|
      invariant start <= pos <= |obj|
      invariant MatchEnd(obj, pos, depth, openChar, closeChar) == MatchEnd(obj, start, 0, openChar, closeChar)
    {
      if obj[pos] == openChar {
        depth := depth + 1;
      } else if obj[pos] == closeChar {
        depth := depth - 1;
        if depth == 0 {
          return true, obj[start..pos + 1];
        }
      }
      pos := pos + 1;
    }
    return false, "";
  }

  // ---------------------------------------------------------------------------
  // days_of_week
  // ---------------------------------------------------------------------------

  /** The value of every digit byte of `t`, in order; other bytes are skipped. */
  function DigitsIn(t: string): (r: seq<nat>)
    decreases |t|
  {
    if t == [] then []
    else
      var c := t[|t| - 1];
      DigitsIn(t[..|t| - 1]) + (if IsDigit(c) then [DigitValue(c)] else [])
  }

  const DaysKey := "days_of_week"

  /**
   * The positions of the first `[` after the first occurrence of `needle` and
   * of the next `]`; none when the needle or either bracket is missing.
   */
  function BracketSpan(obj: string, needle: string): Option<(nat, nat)> {
    match Find(obj, needle, 0)
    case None => None
    case Some(kp) =>
      match FindChar(obj, '[', kp)
      case None => None
      case Some(a) =>
        match FindChar(obj, ']', a)
        case None => None
        case Some(e) => Some((a, e))
  }

  /** The digits between the brackets `BracketSpan` finds; none when it finds none. */
  function DigitsInBrackets(obj: string, key: string): seq<nat> {
    match BracketSpan(obj, KeyNeedle(key))
    case None => []
    case Some((a, e)) => if a < e then DigitsIn(obj[a + 1..e]) else []
  }

  /** The `days_of_week` scan of `FetchRecurringRules`. */
  function DaysOfWeek(obj: string): seq<nat> {
    DigitsInBrackets(obj, DaysKey)
  }

  /** The scan, with its `subPos` loop over the bytes between the brackets. */
  method ScanDaysOfWeek(obj: string) returns (days: seq<nat>)
    ensures days == DaysOfWeek(obj)
  {
    days := [];
    var daysPos := Find(obj, KeyNeedle(DaysKey), 0);
    if daysPos.None? {
      return;
    }
    var arrStart := FindChar(obj, '[', daysPos.value);
    if arrStart.None? {
      return;
    }
    var arrEnd := FindChar(obj, ']', arrStart.value);
    if arrEnd.None? {
      return;
    }
    var arrRaw := obj[arrStart.value + 1..arrEnd.value];
    var subPos := 0;
    while subPos < |arrRaw|
      invariant 0 <= subPos <= |arrRaw|
      invariant days == DigitsIn(arrRaw[..subPos])
    {
      assert arrRaw[..subPos + 1][..subPos] == arrRaw[..subPos];
      if IsDigit(arrRaw[subPos]) {
        days := days + [DigitValue(arrRaw[subPos])];
      }
      subPos := subPos + 1;
    }
    assert arrRaw[..subPos] == arrRaw;
  }

  /** How `AddRecurringRule` writes the days: the numbers joined by commas. */
  function DaysText(days: seq<int>): string
    decreases |days|
  {
    if days == [] then ""
    else if |days| == 1 then IntToString(days[0])
    else DaysText(days[..|days| - 1]) + "," + IntToString(days[|days| - 1])
  }

  lemma DigitsInConcat(a: string, b: string)
    ensures DigitsIn(a + b) == DigitsIn(a) + DigitsIn(b)
    decreases |b|
  {
    if b == [] {
      assert a + b == a;
    } else {
      assert (a + b)[..|a + b| - 1] == a + b[..|b| - 1];
      DigitsInConcat(a, b[..|b| - 1]);
    }
  }

  lemma DigitOfSmall(d: int)
    requires 0 <= d <= 9
    ensures IntToString(d) == [DigitChar(d)] && IsDigit(DigitChar(d)) && DigitValue(DigitChar(d)) == d
  {
  }

  lemma DaysTextLast(days: seq<int>)
    requires |days| >= 2 && 0 <= days[|days| - 1] <= 9
    ensures DaysText(days) == DaysText(days[..|days| - 1]) + "," + [DigitChar(days[|days| - 1])]
  {
    DigitOfSmall(days[|days| - 1]);
  }

  lemma DigitsAfterComma(t: string, d: int)
    requires 0 <= d <= 9
    ensures DigitsIn(t + "," + [DigitChar(d)]) == DigitsIn(t) + [d]
  {
    var n := [DigitChar(d)];
    DigitsInConcat(t + ",", n);
    DigitsInConcat(t, ",");
    assert DigitsIn(",") == DigitsIn([]) + [];
    assert DigitsIn(n) == DigitsIn([]) + [d];
  }

  /** Days written as single digits are read back as written, in order. */
  lemma {:induction false} DaysTextReadsBack(days: seq<int>)
    requires forall k :: 0 <= k < |days| ==> 0 <= days[k] <= 9
    ensures DigitsIn(DaysText(days)) == days
    decreases |days|
  {
    if |days| == 1 {
      DigitOfSmall(days[0]);
      assert DigitsIn([DigitChar(days[0])]) == DigitsIn([]) + [days[0]];
    } else if |days| > 1 {
      var init := days[..|days| - 1];
      DaysTextReadsBack(init);
      DaysTextLast(days);
      DigitsAfterComma(DaysText(init), days[|days| - 1]);
      LastSplit(days);
    }
  }

  /** The bracket scan reads the digits between the first `[` after the key and the next `]`. */
  lemma BracketsAt(obj: string, needle: string, kp: nat, a: nat, e: nat)
    requires Find(obj, needle, 0) == Some(kp)
    requires kp <= a < e < |obj| && obj[a] == '[' && obj[e] == ']'
    requires forall k :: kp <= k < a ==> obj[k] != '['
    requires forall k :: a <= k < e ==> obj[k] != ']'
    ensures BracketSpan(obj, needle) == Some((a, e))
  {
    FindCharAt(obj, '[', kp, a);
    FindCharAt(obj, ']', a, e);
  }

  lemma NeedleHasNoBracket(key: string)
    requires forall k :: 0 <= k < |key| ==> key[k] != '['
    ensures forall k :: 0 <= k < |KeyNeedle(key)| ==> KeyNeedle(key)[k] != '['
  {
    forall k | 0 <= k < |KeyNeedle(key)| ensures KeyNeedle(key)[k] != '[' {
      if 0 < k < |KeyNeedle(key)| - 1 {
        assert KeyNeedle(key)[k] == key[k - 1];
      }
    }
  }

  /** `obj` holds `t`, then `:[`, then `body`, then `]`, from position `kp` on. */
  predicate BracketLayoutAt(obj: string, t: string, kp: nat, body: string) {
    && OccursAt(obj, t, kp)
    && kp + |t| + 2 + |body| < |obj|
    && obj[kp + |t|] == ':' && obj[kp + |t| + 1] == '['
    && obj[kp + |t| + 2..kp + |t| + 2 + |body|] == body
    && obj[kp + |t| + 2 + |body|] == ']'
  }

  /** Where the pieces of `pre + t + ":[" + body + "]"` sit in a text that starts with it. */
  lemma BracketLayout(obj: string, pre: string, t: string, body: string)
    requires StartsWith(obj, pre + t + ":[" + body + "]")
    ensures BracketLayoutAt(obj, t, |pre|, body)
  {
    var p1 := pre + t;
    var p2 := p1 + ":[";
    var p3 := p2 + body;
    StartsWithConcat(obj, p3, "]");
    assert obj[|p3|..][0] == ']';
    StartsWithConcat(obj, p2, body);
    assert obj[|p2|..][..|body|] == obj[|p2|..|p2| + |body|];
    StartsWithConcat(obj, p1, ":[");
    assert obj[|p1|..][0] == ':' && obj[|p1|..][1] == '[';
    StartsWithConcat(obj, pre, t);
    assert obj[|pre|..][..|t|] == obj[|pre|..|pre| + |t|];
  }

  /** No `[` between the needle and the written `[`, and no `]` before the written `]`. */
  lemma BracketsInLayout(obj: string, needle: string, kp: nat, body: string)
    requires forall k :: 0 <= k < |needle| ==> needle[k] != '['
    requires forall k :: 0 <= k < |body| ==> body[k] != ']'
    requires BracketLayoutAt(obj, needle, kp, body)
    ensures forall k :: kp <= k < kp + |needle| + 1 ==> obj[k] != '['
    ensures forall k :: kp + |needle| + 1 <= k < kp + |needle| + 2 + |body| ==> obj[k] != ']'
  {
    var a := kp + |needle| + 1;
    var e := kp + |needle| + 2 + |body|;
    forall k | kp <= k < a ensures obj[k] != '[' {
      if k < kp + |needle| {
        assert obj[kp..kp + |needle|][k - kp] == obj[k];
      }
    }
    forall k | a <= k < e ensures obj[k] != ']' {
      if k > a {
        assert obj[kp + |needle| + 2..e][k - a - 1] == obj[k] == body[k - a - 1];
      }
    }
  }

  /** Where the bracket scan stops, for a needle followed by `:[`, a body without `]`, and `]`. */
  lemma SpanAtLayout(obj: string, needle: string, kp: nat, body: string)
    requires forall k :: 0 <= k < |needle| ==> needle[k] != '['
    requires forall k :: 0 <= k < |body| ==> body[k] != ']'
    requires Find(obj, needle, 0) == Some(kp) && BracketLayoutAt(obj, needle, kp, body)
    ensures BracketSpan(obj, needle) == Some((kp + |needle| + 1, kp + |needle| + 2 + |body|))
  {
    BracketsInLayout(obj, needle, kp, body);
    BracketsAt(obj, needle, kp, kp + |needle| + 1, kp + |needle| + 2 + |body|);
  }

  lemma DigitsFromSpan(obj: string, key: string, needle: string, a: nat, e: nat)
    requires needle == KeyNeedle(key) && BracketSpan(obj, needle) == Some((a, e)) && a < e
    ensures DigitsInBrackets(obj, key) == DigitsIn(obj[a + 1..e])
  {
  }

  /** The read-back, stated over the positions `BracketLayout` gives. */
  lemma DigitsAtLayout(obj: string, key: string, kp: nat, body: string)
    requires forall k :: 0 <= k < |key| ==> key[k] != '['
    requires forall k :: 0 <= k < |body| ==> body[k] != ']'
    requires BracketLayoutAt(obj, KeyNeedle(key), kp, body)
    requires forall k :: 0 <= k < kp ==> !OccursAt(obj, KeyNeedle(key), k)
    ensures DigitsInBrackets(obj, key) == DigitsIn(body)
  {
    var needle := KeyNeedle(key);
    NeedleHasNoBracket(key);
    FindAt(obj, needle, 0, kp);
    DigitsOfFoundLayout(obj, key, needle, kp, body);
  }

  lemma DigitsOfFoundLayout(obj: string, key: string, needle: string, kp: nat, body: string)
    requires needle == KeyNeedle(key)
    requires forall k :: 0 <= k < |needle| ==> needle[k] != '['
    requires forall k :: 0 <= k < |body| ==> body[k] != ']'
    requires Find(obj, needle, 0) == Some(kp) && BracketLayoutAt(obj, needle, kp, body)
    ensures DigitsInBrackets(obj, key) == DigitsIn(body)
  {
    SpanAtLayout(obj, needle, kp, body);
    var a := kp + |needle| + 1;
    var e := kp + |needle| + 2 + |body|;
    assert obj[a + 1..e] == body;
    DigitsFromSpan(obj, key, needle, a, e);
  }

  /**
   * Digits a writer put as `"key":[...]` at the first mention of the key are
   * read back, when the key holds no `[` and the text between the brackets
   * holds no `]`.
   */
  lemma DigitsInBracketsReadBack(obj: string, pre: string, key: string, body: string)
    requires forall k :: 0 <= k < |key| ==> key[k] != '['
    requires forall k :: 0 <= k < |body| ==> body[k] != ']'
    requires StartsWith(obj, pre + KeyNeedle(key) + ":[" + body + "]")
    requires forall k :: 0 <= k < |pre| ==> !OccursAt(obj, KeyNeedle(key), k)
    ensures DigitsInBrackets(obj, key) == DigitsIn(body)
  {
    BracketLayout(obj, pre, KeyNeedle(key), body);
    DigitsAtLayout(obj, key, |pre|, body);
  }

  /**
   * A rule whose days a writer put as `"days_of_week":[d,...]` at the first
   * mention of the key is read back with those days, when they are single
   * digits.
   */
  lemma DaysOfWeekReadsBack(obj: string, pre: string, days: seq<int>)
    requires forall k :: 0 <= k < |days| ==> 0 <= days[k] <= 9
    requires StartsWith(obj, pre + KeyNeedle(DaysKey) + ":[" + DaysText(days) + "]")
    requires forall k :: 0 <= k < |pre| ==> !OccursAt(obj, KeyNeedle(DaysKey), k)
    ensures DaysOfWeek(obj) == days
  {
    DaysTextHasNoCloser(days);
    DaysTextReadsBack(days);
    DaysKeyHasNoBracket();
    DigitsInBracketsReadBack(obj, pre, DaysKey, DaysText(days));
  }

  lemma DaysTextHasNoCloser(days: seq<int>)
    requires forall k :: 0 <= k < |days| ==> 0 <= days[k] <= 9
    ensures forall k :: 0 <= k < |DaysText(days)| ==> DaysText(days)[k] != ']'
  {
    DaysTextBytes(days);
  }

  lemma DaysKeyHasNoBracket()
    ensures forall k :: 0 <= k < |DaysKey| ==> DaysKey[k] != '['
  {
  }

  /** The written days hold only digits and commas. */
  lemma {:induction false} DaysTextBytes(days: seq<int>)
    requires forall k :: 0 <= k < |days| ==> days[k] >= 0
    ensures forall k :: 0 <= k < |DaysText(days)| ==> IsDigit(DaysText(days)[k]) || DaysText(days)[k] == ','
    decreases |days|
  {
    if |days| > 1 {
      DaysTextBytes(days[..|days| - 1]);
      var t := DaysText(days[..|days| - 1]);
      var n := IntToString(days[|days| - 1]);
      assert DaysText(days) == t + "," + n;
      forall k | 0 <= k < |DaysText(days)| ensures IsDigit(DaysText(days)[k]) || DaysText(days)[k] == ',' {
        if k < |t| {
          assert DaysText(days)[k] == t[k];
        } else if k > |t| {
          assert DaysText(days)[k] == n[k - |t| - 1];
        }
      }
    }
  }
}

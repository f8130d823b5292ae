/**
 * The allocation-free JSON array walker of the Xtream client
 * (`ForEachTopLevelObjectSpan`, xtream_client.cpp). It makes one pass over
 * the response body, tracking whether it is inside a string literal, whether
 * the previous byte was a backslash inside a string, the brace depth and the
 * start of the current top-level object, and reports the byte range of every
 * object that closes at depth 0.
 *
 * The callback of the source is replaced by the list of ranges it would
 * receive, in order.
 */
module JsonSpans {
  import opened Text

  /** The lexical state the scanner carries from byte to byte. */
  datatype Lex = Lex(inString: bool, escape: bool, depth: int)

  const Outside := Lex(false, false, 0)

  /** A half-open byte range `[start, end)` of one top-level object. */
  datatype Span = Span(start: nat, end: nat)

  /** How one byte changes the lexical state. */
  function LexStep(l: Lex, c: char): Lex {
    if l.inString then
      if l.escape then l.(escape := false)
      else if c == '\\' then l.(escape := true)
      else if c == '"' then l.(inString := false)
      else l
    else if c == '"' then l.(inString := true)
    else if c == '{' then l.(depth := l.depth + 1)
    else if c == '}' then l.(depth := l.depth - 1)
    else l
  }

  /** The lexical state after reading `t` from `l`. */
  function LexRun(l: Lex, t: string): Lex
    decreases |t|
  {
    if t == [] then l else LexStep(LexRun(l, t[..|t| - 1]), t[|t| - 1])
  }

  /**
   * `t` is one balanced object: it opens with `{`, closes with `}`, every
   * non-empty proper prefix is still inside the object (depth at least 1,
   * braces inside string literals not counted) and the whole of it returns
   * the scanner to the outside state.
   */
  predicate MatchedObject(t: string) {
    |t| >= 2 && t[0] == '{' && t[|t| - 1] == '}'
    && LexRun(Outside, t) == Outside
    && forall k :: 1 <= k < |t| ==> LexRun(Outside, t[..k]).depth >= 1
  }

  /** The spans reported from byte `i` on, given the state before byte `i`. */
  function SpansFrom(json: string, i: nat, l: Lex, objStart: Option<nat>): seq<Span>
    requires i <= |json|
    decreases |json| - i
  {
    if i == |json| then []
    else
      var c := json[i];
      var l' := LexStep(l, c);
      if !l.inString && c == '{' then
        SpansFrom(json, i + 1, l', if l.depth == 0 then Some(i) else objStart)
      else if !l.inString && c == '}' && l'.depth == 0 && objStart.Some? then
        [Span(objStart.value, i + 1)] + SpansFrom(json, i + 1, l', None)
      else
        SpansFrom(json, i + 1, l', objStart)
  }

  /** The body is a JSON array: its first non-space byte is `[`. */
  predicate IsArrayBody(json: string) {
    SkipSpaces(json, 0) < |json| && json[SkipSpaces(json, 0)] == '['
  }

  /** Every span the scanner reports for `json` (none when it is not an array). */
  function TopLevelSpans(json: string): seq<Span> {
    if IsArrayBody(json) then SpansFrom(json, SkipSpaces(json, 0), Outside, None) else []
  }

  /**
   * `ForEachTopLevelObjectSpan`: returns the ranges handed to the callback,
   * in order, and the function's boolean result.
   */
  method ForEachTopLevelObjectSpan(json: string) returns (any: bool, spans: seq<Span>)
    ensures spans == TopLevelSpans(json)
    ensures any <==> |spans| > 0
    ensures !IsArrayBody(json) ==> !any && spans == []
  {
    var n := |json|;
    var i := 0;
    while i < n && IsSpace(json[i])
      invariant 0 <= i <= n
      invariant SkipSpaces(json, i) == SkipSpaces(json, 0)
    {
      i := i + 1;
    }
    spans := [];
    if i >= n || json[i] != '[' {
      return false, [];
    }
    var inString := false;
    var escape := false;
    var depth := 0;
    var objStart: Option<nat> := None;
    any := false;
    while i < n
      invariant 0 <= i <= n
      invariant spans + SpansFrom(json, i, Lex(inString, escape, depth), objStart) == TopLevelSpans(json)
      invariant any <==> |spans| > 0
    {
      var closed;
      inString, escape, depth, objStart, closed := ScanByte(json, i, inString, escape, depth, objStart);
      if closed.Some? {
        any := true;
        spans := spans + [closed.value];
      }
      i := i + 1;
    }
  }

  /**
   * One byte of the scan: the new lexer state and object start, and the
   * span handed to the callback when this byte closes a top-level object.
   */
  method ScanByte(json: string, i: nat, inString: bool, escape: bool, depth: int, objStart: Option<nat>)
    returns (inString': bool, escape': bool, depth': int, objStart': Option<nat>, closed: Option<Span>)
    requires i < |json|
    ensures (if closed.Some? then [closed.value] else [])
              + SpansFrom(json, i + 1, Lex(inString', escape', depth'), objStart')
            == SpansFrom(json, i, Lex(inString, escape, depth), objStart)
  {
    inString', escape', depth', objStart', closed := inString, escape, depth, objStart, None;
    var c := json[i];
    if inString {
      if escape {
        escape' := false;
      } else if c == '\\' {
        escape' := true;
      } else if c == '"' {
        inString' := false;
      }
    } else if c == '"' {
      inString' := true;
    } else if c == '{' {
      if depth == 0 {
        objStart' := Some(i);
      }
      depth' := depth + 1;
    } else if c == '}' {
      depth' := depth - 1;
      if depth' == 0 && objStart.Some? {
        closed := Some(Span(objStart.value, i + 1));
        objStart' := None;
      }
    }
  }

  // ---------------------------------------------------------------------------
  // What the reported spans are
  // ---------------------------------------------------------------------------

  lemma LexRunSnoc(json: string, s: nat, i: nat)
    requires s <= i < |json|
    ensures LexRun(Outside, json[s..i + 1]) == LexStep(LexRun(Outside, json[s..i]), json[i])
  {
    assert json[s..i + 1][..i - s] == json[s..i];
  }

  /** The state the scanner is in between bytes, relative to the open object. */
  predicate ScanInvariant(json: string, i: nat, l: Lex, objStart: Option<nat>) {
    i <= |json|
    && (l.escape ==> l.inString)
    && (objStart.None? ==> l.depth <= 0)
    && (objStart.Some? ==>
          objStart.value < i
          && json[objStart.value] == '{'
          && l == LexRun(Outside, json[objStart.value..i])
          && l.depth >= 1
          && forall k :: objStart.value < k <= i ==> LexRun(Outside, json[objStart.value..k]).depth >= 1)
  }

  /** Properties of every span reported from a state satisfying the invariant. */
  predicate GoodSpans(json: string, lo: nat, spans: seq<Span>) {
    (forall j :: 0 <= j < |spans| ==>
       lo <= spans[j].start < spans[j].end <= |json|
       && MatchedObject(json[spans[j].start..spans[j].end]))
    && (forall j :: 0 <= j < |spans| - 1 ==> spans[j].end <= spans[j + 1].start)
  }

  /** The object start the scanner keeps after byte `i`. */
  function NextStart(json: string, i: nat, l: Lex, objStart: Option<nat>): Option<nat>
    requires i < |json|
  {
    var c := json[i];
    if !l.inString && c == '{' then (if l.depth == 0 then Some(i) else objStart)
    else if !l.inString && c == '}' && LexStep(l, c).depth == 0 && objStart.Some? then None
    else objStart
  }

  lemma OpeningByte(json: string, i: nat)
    requires i < |json| && json[i] == '{'
    ensures LexRun(Outside, json[i..i + 1]) == Lex(false, false, 1)
  {
    assert json[i..i + 1][..0] == [];
  }

  lemma StepKeepsInvariant(json: string, i: nat, l: Lex, objStart: Option<nat>)
    requires ScanInvariant(json, i, l, objStart) && i < |json|
    ensures ScanInvariant(json, i + 1, LexStep(l, json[i]), NextStart(json, i, l, objStart))
  {
    var c := json[i];
    if objStart.Some? {
      LexRunSnoc(json, objStart.value, i);
    }
    if !l.inString && c == '{' && l.depth == 0 {
      OpeningByte(json, i);
    }
  }

  lemma ClosingByte(json: string, i: nat, l: Lex, s: nat)
    requires ScanInvariant(json, i, l, Some(s)) && i < |json|
    requires !l.inString && json[i] == '}' && LexStep(l, json[i]).depth == 0
    ensures MatchedObject(json[s..i + 1])
  {
    LexRunSnoc(json, s, i);
    var t := json[s..i + 1];
    forall k | 1 <= k < |t| ensures LexRun(Outside, t[..k]).depth >= 1 {
      assert t[..k] == json[s..s + k];
    }
  }

  lemma {:induction false} SpansFromGood(json: string, i: nat, l: Lex, objStart: Option<nat>)
    requires ScanInvariant(json, i, l, objStart)
    ensures GoodSpans(json, if objStart.Some? then objStart.value else i, SpansFrom(json, i, l, objStart))
    decreases |json| - i
  {
    if i < |json| {
      var c := json[i];
      var l' := LexStep(l, c);
      var o := NextStart(json, i, l, objStart);
      StepKeepsInvariant(json, i, l, objStart);
      SpansFromGood(json, i + 1, l', o);
      var rest := SpansFrom(json, i + 1, l', o);
      var lo := if objStart.Some? then objStart.value else i;
      if !l.inString && c == '}' && l'.depth == 0 && objStart.Some? {
        assert o == None;
        ClosingStepGood(json, i, l, objStart.value, rest);
      } else {
        assert SpansFrom(json, i, l, objStart) == rest;
        WeakenGood(json, if o.Some? then o.value else i + 1, lo, rest);
      }
    }
  }

  /** The span closed at byte `i` followed by good spans is good from its start. */
  lemma ClosingStepGood(json: string, i: nat, l: Lex, s: nat, rest: seq<Span>)
    requires ScanInvariant(json, i, l, Some(s)) && i < |json|
    requires !l.inString && json[i] == '}' && LexStep(l, json[i]).depth == 0
    requires GoodSpans(json, i + 1, rest)
    ensures GoodSpans(json, s, [Span(s, i + 1)] + rest)
  {
    ClosingByte(json, i, l, s);
    ConsGood(json, s, Span(s, i + 1), rest);
  }

  lemma ConsGood(json: string, lo: nat, sp: Span, rest: seq<Span>)
    requires GoodSpans(json, sp.end, rest)
    requires lo <= sp.start < sp.end <= |json| && MatchedObject(json[sp.start..sp.end])
    ensures GoodSpans(json, lo, [sp] + rest)
  {
    var all := [sp] + rest;
    forall j | 0 <= j < |all| - 1 ensures all[j].end <= all[j + 1].start {
      if j > 0 {
        assert all[j] == rest[j - 1] && all[j + 1] == rest[j];
      }
    }
  }

  lemma WeakenGood(json: string, a: nat, b: nat, spans: seq<Span>)
    requires GoodSpans(json, a, spans) && b <= a
    ensures GoodSpans(json, b, spans)
  {
  }

  /**
   * Every reported span lies after the opening `[`, is one balanced object
   * (its `{` and the `}` that brings the depth back to 0, braces inside
   * string literals and after a backslash in a string not counted), and the
   * spans come in order without overlapping.
   */
  lemma TopLevelSpansAreObjects(json: string)
    ensures GoodSpans(json, SkipSpaces(json, 0) + 1, TopLevelSpans(json))
  {
    if IsArrayBody(json) {
      var i0 := SkipSpaces(json, 0);
      SpansFromGood(json, i0, Outside, None);
      var sp := TopLevelSpans(json);
      forall j | 0 <= j < |sp| ensures sp[j].start != i0 {
        assert json[sp[j].start..sp[j].end][0] == json[sp[j].start];
      }
    }
  }

  /**
   * A `}` and an escaped quote inside a string value do not end the object:
   * the body `[{"a":"\"}"}]` yields the one span that covers the whole object.
   */
  lemma BracesInStringsIgnored()
    ensures TopLevelSpans("[{\"a\":\"\\\"}\"}]") == [Span(1, 12)]
  {
  }
}

/**
 * Reading one value out of the text of Kodi's `settings.xml`
 * (`ExtractSettingValue`, `ExtractSettingInt`, `ExtractSettingBool` in
 * xtream_client.cpp; the same `ExtractSettingValue` is repeated in
 * addon.cpp). The file is searched as text: the opening tag
 * `<setting id="<id>"`, the `>` that ends it, then the text up to the next
 * `</setting>`, trimmed.
 */
module SettingsXml {
  import opened Text

  /** The opening of the element for setting `id`. */
  function SettingNeedle(id: string): string {
    "<setting id=\"" + id + "\""
  }

  /** The cursor just after the `>` that ends the opening tag of setting `id`. */
  function AfterOpeningTag(xml: string, id: string): (r: Option<nat>)
    ensures r.Some? ==> 0 < r.value <= |xml| && xml[r.value - 1] == '>'
  {
    match Find(xml, SettingNeedle(id), 0)
    case None => None
    case Some(p) =>
      match FindChar(xml, '>', p)
      case None => None
      case Some(g) => Some(g + 1)
  }

  /** The trimmed text from `pos` up to the next `</setting>`, if there is one. */
  function ContentFrom(xml: string, pos: nat): Option<string>
    requires pos <= |xml|
  {
    match Find(xml, "</setting>", pos)
    case None => None
    case Some(e) => Some(Trimmed(xml[pos..e]))
  }

  /**
   * `ExtractSettingValue` as written: its self-closing test looks at the
   * byte before the cursor and the byte at it, `xml[pos - 1] == '/'` and
   * `xml[pos] == '>'`, after the cursor has already been moved past `>`.
   * So a value is read only where some `</setting>` follows the opening
   * tag, even for a self-closing element.
   */
  function ExtractSettingValueAsWritten(xml: string, id: string): (r: Option<string>)
    ensures r.Some? ==> AfterOpeningTag(xml, id).Some?
    ensures r.Some? ==> Find(xml, "</setting>", AfterOpeningTag(xml, id).value).Some?
  {
    match AfterOpeningTag(xml, id)
    case None => None
    case Some(pos) =>
      if pos < |xml| && xml[pos] == '>' && xml[pos - 1] == '/' then Some([])
      else ContentFrom(xml, pos)
  }

  /**
   * The self-closing test of the source can never pass: the byte before
   * the cursor is the `>` just found, never `/`. A self-closing element is
   * therefore read as the text up to the `</setting>` of a later element.
   */
  lemma SelfClosingTestNeverPasses(xml: string, id: string)
    ensures AfterOpeningTag(xml, id).Some? ==>
      ExtractSettingValueAsWritten(xml, id) == ContentFrom(xml, AfterOpeningTag(xml, id).value)
  {
  }

  /** An element written as `<setting id="<id>"<attrs>>value</setting>`. */
  function ElementText(id: string, attrs: string, value: string): string {
    SettingNeedle(id) + attrs + ">" + value + "</setting>"
  }

  /** An element written as `<setting id="<id>"<attrs>/>`. */
  function EmptyElementText(id: string, attrs: string): string {
    SettingNeedle(id) + attrs + "/>"
  }

  predicate Avoids(s: string, c: char) {
    forall k :: 0 <= k < |s| ==> s[k] != c
  }

  /** Neither the attributes nor the value can end the element early. */
  predicate PlainElement(attrs: string, value: string) {
    Avoids(attrs, '>') && (attrs == [] || attrs[|attrs| - 1] != '/') && Avoids(value, '<')
  }

  /** Nothing before `|pre|` in `xml` opens setting `id`. */
  predicate FirstElementFor(xml: string, pre: string, id: string) {
    forall k :: 0 <= k < |pre| ==> !OccursAt(xml, SettingNeedle(id), k)
  }

  /** The fixed part of the opening holds neither `>` nor `/`. */
  lemma NeedleAvoids(id: string, c: char)
    requires c == '>' || c == '/'
    requires Avoids(id, c)
    ensures Avoids(SettingNeedle(id), c)
  {
    var open := "<setting id=\"";
    assert Avoids(open, c);
    assert SettingNeedle(id) == open + id + "\"";
  }

  /** Where the opening tag of the first element for `id` ends. */
  lemma OpeningTagAt(xml: string, pre: string, id: string, attrs: string)
    requires StartsWith(xml, pre + SettingNeedle(id) + attrs + ">")
    requires Avoids(id, '>') && Avoids(attrs, '>')
    requires FirstElementFor(xml, pre, id)
    ensures AfterOpeningTag(xml, id) == Some(|pre| + |SettingNeedle(id)| + |attrs| + 1)
  {
    var p := |pre|;
    var g := p + |SettingNeedle(id)| + |attrs|;
    NeedleFirstAt(xml, pre, id, attrs + ">");
    TagEndAt(xml, pre, id, attrs);
    AfterOpeningTagAt(xml, id, p, g);
  }

  lemma NeedleFirstAt(xml: string, pre: string, id: string, rest: string)
    requires StartsWith(xml, pre + SettingNeedle(id) + rest)
    requires FirstElementFor(xml, pre, id)
    ensures Find(xml, SettingNeedle(id), 0) == Some(|pre|)
  {
    WrittenAt(xml, pre, SettingNeedle(id), rest);
    FindAt(xml, SettingNeedle(id), 0, |pre|);
  }

  lemma TagEndAt(xml: string, pre: string, id: string, attrs: string)
    requires StartsWith(xml, pre + SettingNeedle(id) + attrs + ">")
    requires Avoids(id, '>') && Avoids(attrs, '>')
    ensures FindChar(xml, '>', |pre|) == Some(|pre| + |SettingNeedle(id)| + |attrs|)
  {
    var n := SettingNeedle(id);
    var p := |pre|;
    var g := p + |n| + |attrs|;
    WrittenAt(xml, pre, n, attrs + ">");
    SplitSlice(xml, p + |n|, g, g + 1, attrs, ">");
    NeedleAvoids(id, '>');
    AvoidsInSlice(xml, p, p + |n|, n, '>');
    AvoidsInSlice(xml, p + |n|, g, attrs, '>');
    assert xml[g] == xml[g..g + 1][0];
    FindCharAt(xml, '>', p, g);
  }

  lemma AfterOpeningTagAt(xml: string, id: string, p: nat, g: nat)
    requires Find(xml, SettingNeedle(id), 0) == Some(p) && FindChar(xml, '>', p) == Some(g)
    ensures AfterOpeningTag(xml, id) == Some(g + 1)
  {
  }

  /** A slice that spells a text avoiding `c` holds no `c`. */
  lemma AvoidsInSlice(xml: string, i: nat, j: nat, t: string, c: char)
    requires i <= j <= |xml| && xml[i..j] == t && Avoids(t, c)
    ensures forall k :: i <= k < j ==> xml[k] != c
  {
    forall k | i <= k < j ensures xml[k] != c {
      assert xml[k] == t[k - i];
    }
  }

  /** No closing tag starts at `k` unless `</` does. */
  lemma NoCloseTagAt(xml: string, k: nat)
    requires k + 1 < |xml| && (xml[k] != '<' || xml[k + 1] != '/')
    ensures !OccursAt(xml, "</setting>", k)
  {
    if k + 10 <= |xml| {
      assert xml[k..k + 10][0] == xml[k] && xml[k..k + 10][1] == xml[k + 1];
    }
  }

  /** From `pos`, `body` and then `</setting>`, with no closing tag inside `body`. */
  lemma ContentUntilClose(xml: string, pos: nat, body: string)
    requires pos <= |xml| && StartsWith(xml[pos..], body + "</setting>")
    requires Avoids(body, '<') || Avoids(body, '/')
    ensures ContentFrom(xml, pos) == Some(Trimmed(body))
  {
    var e := pos + |body|;
    assert xml[pos..][..|body| + 10] == xml[pos..e + 10];
    SplitSlice(xml, pos, e, e + 10, body, "</setting>");
    forall k | pos <= k < e ensures !OccursAt(xml, "</setting>", k) {
      assert xml[k] == xml[pos..e][k - pos] == body[k - pos];
      if k + 1 < e {
        assert xml[k + 1] == xml[pos..e][k + 1 - pos] == body[k + 1 - pos];
      } else {
        assert xml[k + 1] == xml[e..e + 10][0] == '<';
      }
      NoCloseTagAt(xml, k);
    }
    FindAt(xml, "</setting>", pos, e);
  }

  /**
   * `ExtractSettingValue` with the self-closing test the comment describes:
   * an opening tag that ends in `/>` gives an empty value.
   */
  function ExtractSettingValue(xml: string, id: string): (r: Option<string>)
    ensures r.Some? ==> AfterOpeningTag(xml, id).Some?
  {
    match AfterOpeningTag(xml, id)
    case None => None
    case Some(pos) =>
      if pos >= 2 && xml[pos - 2] == '/' then Some([])
      else ContentFrom(xml, pos)
  }

  /**
   * A value is read back: in `pre + <setting id="id" attrs>value</setting>
   * + rest`, with no earlier element for `id`, the value comes back
   * trimmed.
   */
  lemma ExtractSettingValueReadsBack(xml: string, pre: string, id: string, attrs: string, value: string)
    requires StartsWith(xml, pre + ElementText(id, attrs, value))
    requires Avoids(id, '>') && PlainElement(attrs, value) && FirstElementFor(xml, pre, id)
    ensures ExtractSettingValue(xml, id) == Some(Trimmed(value))
  {
    var n := SettingNeedle(id);
    var head := pre + n + attrs + ">";
    var pos := |pre| + |n| + |attrs| + 1;
    assert StartsWith(xml, head) && StartsWith(xml[pos..], value + "</setting>") by {
      assert pre + ElementText(id, attrs, value) == head + (value + "</setting>");
      StartsWithConcat(xml, head, value + "</setting>");
    }
    assert AfterOpeningTag(xml, id) == Some(pos) by {
      OpeningTagAt(xml, pre, id, attrs);
    }
    assert xml[pos - 2] != '/' by {
      PrefixSlice(xml, head, pos - 2, pos - 1);
      assert xml[pos - 2] == head[pos - 2];
      if attrs == [] {
        assert head[pos - 2] == n[|n| - 1] == '"';
      } else {
        assert head[pos - 2] == attrs[|attrs| - 1];
      }
    }
    ContentUntilClose(xml, pos, value);
    OpenTagValue(xml, id, pos);
  }

  /** Past an opening tag that does not end in `/>`, the value is the content up to `</setting>`. */
  lemma OpenTagValue(xml: string, id: string, pos: nat)
    requires AfterOpeningTag(xml, id) == Some(pos) && pos >= 2 && xml[pos - 2] != '/'
    ensures ExtractSettingValue(xml, id) == ContentFrom(xml, pos)
  {
  }

  /** A self-closing element reads back as the empty value. */
  lemma ExtractSettingValueReadsEmpty(xml: string, pre: string, id: string, attrs: string)
    requires StartsWith(xml, pre + EmptyElementText(id, attrs))
    requires Avoids(id, '>') && Avoids(attrs, '>')
    requires FirstElementFor(xml, pre, id)
    ensures ExtractSettingValue(xml, id) == Some([])
  {
    SelfClosingTagEnd(xml, pre, id, attrs);
    var pos := |pre + EmptyElementText(id, attrs)|;
    assert pre + EmptyElementText(id, attrs) == pre + SettingNeedle(id) + attrs + "/>";
    SlashBeforeTagEnd(xml, pre + SettingNeedle(id) + attrs, pos);
    ClosedTagValue(xml, id, pos);
  }

  lemma SlashBeforeTagEnd(xml: string, head: string, pos: nat)
    requires StartsWith(xml, head + "/>") && pos == |head| + 2
    ensures xml[pos - 2] == '/'
  {
    PrefixSlice(xml, head + "/>", pos - 2, pos - 1);
    assert (head + "/>")[pos - 2..pos - 1] == "/";
    assert xml[pos - 2] == xml[pos - 2..pos - 1][0];
  }

  /** Past an opening tag that ends in `/>`, the value is empty. */
  lemma ClosedTagValue(xml: string, id: string, pos: nat)
    requires AfterOpeningTag(xml, id) == Some(pos) && pos >= 2 && xml[pos - 2] == '/'
    ensures ExtractSettingValue(xml, id) == Some([])
  {
  }

  // ---------------------------------------------------------------------------
  // The self-closing test as written
  // ---------------------------------------------------------------------------

  /**
   * A self-closing element followed by another element, as in
   * `<setting id="x" /><setting id="y">v</setting>`: the self-closing test
   * as written does not fire, and setting `x` is read as the opening tag and
   * text of the next element, which is never empty.
   */
  lemma SelfClosingReadsNextElement(xml: string, pre: string, id: string, attrs: string,
                                    id2: string, attrs2: string, value: string)
    requires StartsWith(xml, pre + EmptyElementText(id, attrs) + ElementText(id2, attrs2, value))
    requires Avoids(id, '>') && Avoids(attrs, '>') && FirstElementFor(xml, pre, id)
    requires Avoids(id2, '/') && Avoids(attrs2, '/') && Avoids(value, '/')
    ensures ExtractSettingValueAsWritten(xml, id) == Some(Trimmed(SettingNeedle(id2) + attrs2 + ">" + value))
    ensures Trimmed(SettingNeedle(id2) + attrs2 + ">" + value) != []
  {
    var head := pre + EmptyElementText(id, attrs);
    StartsWithConcat(xml, head, ElementText(id2, attrs2, value));
    SelfClosingTagEnd(xml, pre, id, attrs);
    SelfClosingTestNeverPasses(xml, id);
    NextElementContent(xml, |head|, id2, attrs2, value);
  }

  /** The opening tag of a self-closing element ends after its `/>`. */
  lemma SelfClosingTagEnd(xml: string, pre: string, id: string, attrs: string)
    requires StartsWith(xml, pre + EmptyElementText(id, attrs))
    requires Avoids(id, '>') && Avoids(attrs, '>') && FirstElementFor(xml, pre, id)
    ensures |pre + EmptyElementText(id, attrs)| <= |xml|
    ensures AfterOpeningTag(xml, id) == Some(|pre + EmptyElementText(id, attrs)|)
  {
    assert pre + EmptyElementText(id, attrs) == pre + SettingNeedle(id) + (attrs + "/") + ">";
    assert Avoids(attrs + "/", '>');
    OpeningTagAt(xml, pre, id, attrs + "/");
  }

  /** From the start of an element, the content up to its closing tag is its opening tag and value. */
  lemma NextElementContent(xml: string, pos: nat, id2: string, attrs2: string, value: string)
    requires pos <= |xml| && StartsWith(xml[pos..], ElementText(id2, attrs2, value))
    requires Avoids(id2, '/') && Avoids(attrs2, '/') && Avoids(value, '/')
    ensures ContentFrom(xml, pos) == Some(Trimmed(SettingNeedle(id2) + attrs2 + ">" + value))
    ensures Trimmed(SettingNeedle(id2) + attrs2 + ">" + value) != []
  {
    var body := SettingNeedle(id2) + attrs2 + ">" + value;
    assert ElementText(id2, attrs2, value) == body + "</setting>";
    NeedleAvoids(id2, '/');
    assert Avoids(body, '/');
    ContentUntilClose(xml, pos, body);
    assert body[0] == '<';
    TrimmedNonEmpty(body);
  }

  // ---------------------------------------------------------------------------
  // Typed settings
  // ---------------------------------------------------------------------------

  /** `ExtractSettingInt`: a present, non-empty value read with `std::stoi`. */
  function ExtractSettingInt(xml: string, id: string): (r: Option<int>)
    ensures r.Some? ==> IsInt32(r.value)
  {
    match ExtractSettingValue(xml, id)
    case None => None
    case Some(s) => if s == [] then None else Stoi(s)
  }

  /** The words `ExtractSettingBool` accepts, after trimming and lower-casing. */
  function BoolWord(s: string): Option<bool> {
    var v := ToLower(Trimmed(s));
    if v == "true" || v == "1" || v == "yes" then Some(true)
    else if v == "false" || v == "0" || v == "no" then Some(false)
    else None
  }

  /** `ExtractSettingBool`: a present, non-empty value that is one of the six words. */
  function ExtractSettingBool(xml: string, id: string): Option<bool> {
    match ExtractSettingValue(xml, id)
    case None => None
    case Some(s) => if s == [] then None else BoolWord(s)
  }

  lemma IntToStringShape(n: int)
    ensures var t := IntToString(n);
      t != [] && (forall k :: 0 <= k < |t| ==> t[k] == '-' || IsDigit(t[k]))
  {
  }

  /** The number Kodi wrote for an integer setting is read back. */
  lemma ExtractSettingIntReadsBack(xml: string, pre: string, id: string, attrs: string, n: int)
    requires IsInt32(n)
    requires StartsWith(xml, pre + ElementText(id, attrs, IntToString(n)))
    requires Avoids(id, '>') && Avoids(attrs, '>') && (attrs == [] || attrs[|attrs| - 1] != '/')
    requires FirstElementFor(xml, pre, id)
    ensures ExtractSettingInt(xml, id) == Some(n)
  {
    IntToStringShape(n);
    NumberValueReadsBack(xml, pre, id, attrs, IntToString(n));
    StoiOfIntToString(n, []);
    assert IntToString(n) + [] == IntToString(n);
  }

  /** A value made of digits and signs is read back as written. */
  lemma NumberValueReadsBack(xml: string, pre: string, id: string, attrs: string, t: string)
    requires t != [] && forall k :: 0 <= k < |t| ==> t[k] == '-' || IsDigit(t[k])
    requires StartsWith(xml, pre + ElementText(id, attrs, t))
    requires Avoids(id, '>') && Avoids(attrs, '>') && (attrs == [] || attrs[|attrs| - 1] != '/')
    requires FirstElementFor(xml, pre, id)
    ensures ExtractSettingValue(xml, id) == Some(t)
  {
    NumberTextPlain(t);
    ExtractSettingValueReadsBack(xml, pre, id, attrs, t);
  }

  lemma NumberTextPlain(t: string)
    requires t != [] && forall k :: 0 <= k < |t| ==> t[k] == '-' || IsDigit(t[k])
    ensures Avoids(t, '<') && Trimmed(t) == t
  {
    assert t[0] == '-' || IsDigit(t[0]);
    assert t[|t| - 1] == '-' || IsDigit(t[|t| - 1]);
    TrimmedUnchanged(t);
  }

  /** Text without capital letters is its own lower-casing. */
  lemma LowerCaseUnchanged(s: string)
    requires forall k :: 0 <= k < |s| ==> !('A' <= s[k] <= 'Z')
    ensures ToLower(s) == s
  {
  }

  /** How Kodi writes a boolean setting. */
  function BoolText(b: bool): string {
    if b then "true" else "false"
  }

  lemma BoolTextPlain(b: bool)
    ensures Avoids(BoolText(b), '<') && Trimmed(BoolText(b)) == BoolText(b)
    ensures BoolWord(BoolText(b)) == Some(b)
  {
    var t := BoolText(b);
    TrimmedUnchanged(t);
    LowerCaseUnchanged(t);
  }

  /** `true` and `false`, as Kodi writes booleans, are read back. */
  lemma ExtractSettingBoolReadsBack(xml: string, pre: string, id: string, attrs: string, b: bool)
    requires StartsWith(xml, pre + ElementText(id, attrs, BoolText(b)))
    requires Avoids(id, '>') && Avoids(attrs, '>') && (attrs == [] || attrs[|attrs| - 1] != '/')
    requires FirstElementFor(xml, pre, id)
    ensures ExtractSettingBool(xml, id) == Some(b)
  {
    BoolTextPlain(b);
    ExtractSettingValueReadsBack(xml, pre, id, attrs, BoolText(b));
  }

  /**
   * The spellings of true: `true`, `1` and `yes`, in any case and with
   * white space around them.
   */
  lemma BoolWordTrueSpellings(s: string)
    ensures BoolWord(s) == Some(true) <==> ToLower(Trimmed(s)) in {"true", "1", "yes"}
  {
  }

  /**
   * The spellings of false are `false`, `0` and `no` in the same way, and
   * every other word is no boolean at all.
   */
  lemma BoolWordFalseSpellings(s: string)
    ensures BoolWord(s) == Some(false) <==> ToLower(Trimmed(s)) in {"false", "0", "no"}
    ensures BoolWord(s).None? <==> ToLower(Trimmed(s)) !in {"true", "1", "yes", "false", "0", "no"}
  {
  }
}

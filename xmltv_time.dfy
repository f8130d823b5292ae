/**
 * The `start` and `stop` attributes of an XMLTV `<programme>`, as
 * `ParseXMLTV` (xtream_client.cpp) reads them:
 * `sscanf(attr, "%4d%2d%2d%2d%2d%2d %c%2d%2d", ...)`. At least the six
 * date and time fields must convert; the zone sign and offset are
 * optional and default to `+0000`. The fields go through `timegm` as if
 * they were UTC, and the signed offset is then subtracted, so
 * `20:00 +0100` is 19:00 UTC.
 */
module XmltvTime {
  import opened Text
  import opened CivilTime

  /** One converted `%d` field and the cursor after it. */
  datatype Scanned = Scanned(value: int, next: nat)

  /**
   * One `%Nd` conversion of `sscanf` from `pos`: white space is skipped,
   * then an optional sign and decimal digits, at most `width` bytes in all.
   * `None` when no digit can be read (a matching or input failure).
   */
  function ScanInt(s: string, pos: nat, width: nat): (r: Option<Scanned>)
    requires pos <= |s|
    ensures r.Some? ==> pos < r.value.next <= |s|
  {
    var p := SpacesEnd(s, pos);
    if p == |s| then None
    else
      var signed := s[p] == '-' || s[p] == '+';
      var q := if signed then p + 1 else p;
      var e := DigitRunEnd(s, q, p + width);
      if e == q then None
      else
        var v := RunValue(s, q, e);
        Some(Scanned(if signed && s[p] == '-' then -v else v, e))
  }

  /** The first position from `pos` on that is not white space. */
  function SpacesEnd(s: string, pos: nat): (r: nat)
    requires pos <= |s|
    ensures pos <= r <= |s|
    decreases |s| - pos
  {
    if pos < |s| && IsSpace(s[pos]) then SpacesEnd(s, pos + 1) else pos
  }

  /** The end of the run of digits from `q`, cut at `limit`. */
  function DigitRunEnd(s: string, q: nat, limit: nat): (r: nat)
    requires q <= |s|
    ensures q <= r <= |s| && (q <= limit ==> r <= limit)
    decreases |s| - q
  {
    if q < |s| && q < limit && IsDigit(s[q]) then DigitRunEnd(s, q + 1, limit) else q
  }

  /** The decimal value of the bytes in `[q, e)`, accumulated left to right. */
  function RunValue(s: string, q: nat, e: nat): int
    requires q <= e <= |s|
    decreases e - q
  {
    if q == e then 0 else RunValue(s, q, e - 1) * 10 + ((s[e - 1] as int) - ('0' as int))
  }

  /** The values of the conversions of `%4d%2d%2d%2d%2d%2d` from field `i` on, read until one fails. */
  datatype Fields = Fields(values: seq<int>, end: nat)

  function ScanFields(s: string, pos: nat, i: nat): (r: Fields)
    requires pos <= |s| && i <= 6
    ensures |r.values| <= 6 - i && pos <= r.end <= |s|
    decreases 6 - i
  {
    if i == 6 then Fields([], pos)
    else
      match ScanInt(s, pos, FieldWidth(i))
      case None => Fields([], pos)
      case Some(sc) =>
        var rest := ScanFields(s, sc.next, i + 1);
        Fields([sc.value] + rest.values, rest.end)
  }

  /** The width of field `i`: four digits of year, then two each. */
  function FieldWidth(i: nat): nat { if i == 0 then 4 else 2 }

  /**
   * The zone part, ` %c%2d%2d`, from `pos`: the seconds to subtract. The
   * sign is whatever byte follows the optional white space; only `'-'`
   * negates. Fields that do not convert keep their defaults: sign `'+'`,
   * hours and minutes 0.
   */
  function ZoneOffset(s: string, pos: nat): int
    requires pos <= |s|
  {
    var p := SpacesEnd(s, pos);
    if p == |s| then 0
    else
      var sign := s[p];
      var hours := ScanInt(s, p + 1, 2);
      var h := if hours.Some? then hours.value.value else 0;
      var m := if hours.Some? && ScanInt(s, hours.value.next, 2).Some? then ScanInt(s, hours.value.next, 2).value.value else 0;
      var off := h * 3600 + m * 60;
      if sign == '-' then -off else off
  }

  /**
   * The instant an attribute names, or 0 (the `EpgEntry` default) when the
   * attribute is empty or fewer than six fields convert.
   */
  function XmltvInstant(attr: string): int {
    if attr == [] then 0
    else
      var f := ScanFields(attr, 0, 0);
      if |f.values| < 6 then 0
      else
        var v := f.values;
        Timegm(v[0], v[1] - 1, v[2], v[3], v[4], v[5]) - ZoneOffset(attr, f.end)
  }

  // ---------------------------------------------------------------------------
  // Reading back a well-formed attribute
  // ---------------------------------------------------------------------------

  /** The attribute a guide writes: `YYYYMMDDhhmmss` then a space, the zone sign and `HHMM`. */
  function StampAttr(dt: Date, hour: nat, min: nat, sec: nat, sign: char, zh: nat, zm: nat): string
    requires dt.year >= 0 && dt.month >= 0 && dt.day >= 0
  {
    PadNat(dt.year, 4) + PadNat(dt.month, 2) + PadNat(dt.day, 2)
      + PadNat(hour, 2) + PadNat(min, 2) + PadNat(sec, 2)
      + " " + [sign] + PadNat(zh, 2) + PadNat(zm, 2)
  }

  /** The signed offset of a `[+-]HHMM` zone, in seconds east of UTC. */
  function ZoneSeconds(sign: char, zh: int, zm: int): int {
    if sign == '-' then -(zh * 3600 + zm * 60) else zh * 3600 + zm * 60
  }

  /**
   * A guide time whose fields are in range names the wall-clock instant
   * minus the signed zone offset.
   */
  lemma XmltvInstantOfStamp(dt: Date, hour: nat, min: nat, sec: nat, sign: char, zh: nat, zm: nat)
    requires 0 <= dt.year < 10000 && ValidDate(dt)
    requires hour < 24 && min < 60 && sec < 60 && zh < 100 && zm < 60
    requires sign == '+' || sign == '-'
    ensures XmltvInstant(StampAttr(dt, hour, min, sec, sign, zh, zm))
         == DaysFromCivil(dt) * 86400 + hour * 3600 + min * 60 + sec - ZoneSeconds(sign, zh, zm)
  {
    var s := StampAttr(dt, hour, min, sec, sign, zh, zm);
    StampReads(s, dt, hour, min, sec, sign, zh, zm);
    InstantOfReadStamp(s, dt, hour, min, sec, ZoneSeconds(sign, zh, zm));
  }

  /** Fields read from a valid date and time name its day number and seconds, minus the zone. */
  lemma InstantOfReadStamp(s: string, dt: Date, hour: int, min: int, sec: int, zone: int)
    requires ValidDate(dt) && |s| == 20
    requires ScanFields(s, 0, 0) == Fields([dt.year, dt.month, dt.day, hour, min, sec], 14)
    requires ZoneOffset(s, 14) == zone
    ensures XmltvInstant(s) == DaysFromCivil(dt) * 86400 + hour * 3600 + min * 60 + sec - zone
  {
    InstantOfFields(s, [dt.year, dt.month, dt.day, hour, min, sec], 14);
    TimegmInRange(dt, hour, min, sec);
  }

  /** An attribute whose six fields were read names `timegm` of them minus its zone. */
  lemma InstantOfFields(attr: string, v: seq<int>, end: nat)
    requires attr != [] && |v| == 6 && ScanFields(attr, 0, 0) == Fields(v, end)
    ensures XmltvInstant(attr) == Timegm(v[0], v[1] - 1, v[2], v[3], v[4], v[5]) - ZoneOffset(attr, end)
  {
    var f := ScanFields(attr, 0, 0);
    assert f.values == v && f.end == end;
    var t := Timegm(v[0], v[1] - 1, v[2], v[3], v[4], v[5]);
    assert XmltvInstant(attr) == t - ZoneOffset(attr, end);
  }

  /** What `sscanf` reads from a stamp attribute. */
  lemma StampReads(s: string, dt: Date, hour: nat, min: nat, sec: nat, sign: char, zh: nat, zm: nat)
    requires 0 <= dt.year < 10000 && ValidDate(dt)
    requires hour < 24 && min < 60 && sec < 60 && zh < 100 && zm < 60
    requires sign == '+' || sign == '-'
    requires s == StampAttr(dt, hour, min, sec, sign, zh, zm)
    ensures |s| == 20
    ensures ScanFields(s, 0, 0) == Fields([dt.year, dt.month, dt.day, hour, min, sec], 14)
    ensures ZoneOffset(s, 14) == ZoneSeconds(sign, zh, zm)
  {
    StampPieces(s, dt, hour, min, sec, sign, zh, zm);
    assert ScanFields(s, 0, 0) == Fields([dt.year, dt.month, dt.day, hour, min, sec], 14) by {
      StampDateReads(s, dt, hour, min, sec);
    }
    ZoneOfStamp(s, sign, zh, zm);
  }

  /** The pieces of a stamp attribute, each at its offset. */
  lemma StampPieces(s: string, dt: Date, hour: nat, min: nat, sec: nat, sign: char, zh: nat, zm: nat)
    requires 0 <= dt.year < 10000 && 0 <= dt.month < 100 && 0 <= dt.day < 100
    requires hour < 24 && min < 60 && sec < 60 && zh < 100 && zm < 60
    requires s == StampAttr(dt, hour, min, sec, sign, zh, zm)
    ensures |s| == 20 && s[14] == ' ' && s[15] == sign
    ensures s[0..4] == PadNat(dt.year, 4) && s[4..6] == PadNat(dt.month, 2)
    ensures s[6..8] == PadNat(dt.day, 2) && s[8..10] == PadNat(hour, 2)
    ensures s[10..12] == PadNat(min, 2) && s[12..14] == PadNat(sec, 2)
    ensures s[16..18] == PadNat(zh, 2) && s[18..20] == PadNat(zm, 2)
  {
    PadNatWidth(dt.year, 4);
    PadNatWidth(dt.month, 2);
    PadNatWidth(dt.day, 2);
    PadNatWidth(hour, 2);
    PadNatWidth(min, 2);
    PadNatWidth(sec, 2);
    PadNatWidth(zh, 2);
    PadNatWidth(zm, 2);
    StampLayout(s, PadNat(dt.year, 4), PadNat(dt.month, 2), PadNat(dt.day, 2), PadNat(hour, 2),
                PadNat(min, 2), PadNat(sec, 2), sign, PadNat(zh, 2), PadNat(zm, 2));
  }

  /** The six date and time fields of a stamp read back. */
  lemma StampDateReads(s: string, dt: Date, hour: nat, min: nat, sec: nat)
    requires 0 <= dt.year < 10000 && 0 <= dt.month < 100 && 0 <= dt.day < 100
    requires hour < 24 && min < 60 && sec < 60
    requires |s| == 20
    requires s[0..4] == PadNat(dt.year, 4) && s[4..6] == PadNat(dt.month, 2)
    requires s[6..8] == PadNat(dt.day, 2) && s[8..10] == PadNat(hour, 2)
    requires s[10..12] == PadNat(min, 2) && s[12..14] == PadNat(sec, 2)
    ensures ScanFields(s, 0, 0) == Fields([dt.year, dt.month, dt.day, hour, min, sec], 14)
  {
    FieldOfStamp(s, 0, 4, dt.year);
    FieldOfStamp(s, 4, 2, dt.month);
    FieldOfStamp(s, 6, 2, dt.day);
    FieldOfStamp(s, 8, 2, hour);
    FieldOfStamp(s, 10, 2, min);
    FieldOfStamp(s, 12, 2, sec);
    DateFieldsOfStamp(s, dt.year, dt.month, dt.day, hour, min, sec);
  }

  /** A number below `10^width` is written in exactly `width` digits. */
  lemma PadNatWidth(n: nat, width: nat)
    requires (width == 4 && n < 10000) || (width == 2 && n < 100)
    ensures |PadNat(n, width)| == width
  {
    assert Pow10(4) == 10000 && Pow10(2) == 100;
    PadNatReadsBack(n, width);
  }

  /** A zero-padded field of a stamp converts to its number. */
  lemma FieldOfStamp(s: string, pos: nat, width: nat, n: nat)
    requires (width == 4 && n < 10000) || (width == 2 && n < 100)
    requires pos + width <= |s| && s[pos..pos + width] == PadNat(n, width)
    ensures ScanInt(s, pos, width) == Some(Scanned(n, pos + width))
  {
    assert Pow10(4) == 10000 && Pow10(2) == 100;
    PadNatReadsBack(n, width);
    ScanIntOfDigits(s, pos, width, n);
  }

  /** Six fields that each convert make `ScanFields` read all six. */
  lemma DateFieldsOfStamp(s: string, y: int, mo: int, d: int, h: int, mi: int, se: int)
    requires |s| == 20
    requires ScanInt(s, 0, 4) == Some(Scanned(y, 4)) && ScanInt(s, 4, 2) == Some(Scanned(mo, 6))
    requires ScanInt(s, 6, 2) == Some(Scanned(d, 8)) && ScanInt(s, 8, 2) == Some(Scanned(h, 10))
    requires ScanInt(s, 10, 2) == Some(Scanned(mi, 12)) && ScanInt(s, 12, 2) == Some(Scanned(se, 14))
    ensures ScanFields(s, 0, 0) == Fields([y, mo, d, h, mi, se], 14)
  {
    ScanFieldsStep(s, 12, 5, Scanned(se, 14), Fields([], 14));
    ScanFieldsStep(s, 10, 4, Scanned(mi, 12), Fields([se], 14));
    ScanFieldsStep(s, 8, 3, Scanned(h, 10), Fields([mi, se], 14));
    ScanFieldsStep(s, 6, 2, Scanned(d, 8), Fields([h, mi, se], 14));
    ScanFieldsStep(s, 4, 1, Scanned(mo, 6), Fields([d, h, mi, se], 14));
    ScanFieldsStep(s, 0, 0, Scanned(y, 4), Fields([mo, d, h, mi, se], 14));
  }

  /** One step of `ScanFields`. */
  lemma ScanFieldsStep(s: string, pos: nat, i: nat, sc: Scanned, rest: Fields)
    requires pos <= |s| && i < 6 && ScanInt(s, pos, FieldWidth(i)) == Some(sc)
    requires ScanFields(s, sc.next, i + 1) == rest
    ensures ScanFields(s, pos, i) == Fields([sc.value] + rest.values, rest.end)
  {
  }

  /** Where each piece of a stamp attribute sits. */
  lemma StampLayout(s: string, y: string, mo: string, d: string, h: string, mi: string, se: string,
                    sign: char, th: string, tm: string)
    requires |y| == 4 && |mo| == 2 && |d| == 2 && |h| == 2 && |mi| == 2 && |se| == 2 && |th| == 2 && |tm| == 2
    requires s == y + mo + d + h + mi + se + " " + [sign] + th + tm
    ensures |s| == 20 && s[14] == ' ' && s[15] == sign
    ensures s[0..4] == y && s[4..6] == mo && s[6..8] == d && s[8..10] == h
    ensures s[10..12] == mi && s[12..14] == se && s[16..18] == th && s[18..20] == tm
  {
  }

  /** A field of exactly `width` digits converts to its number. */
  lemma ScanIntOfDigits(s: string, pos: nat, width: nat, n: nat)
    requires 1 <= width && pos + width <= |s|
    requires AllDigits(s[pos..pos + width]) && DigitsValue(s[pos..pos + width]) == n
    ensures ScanInt(s, pos, width) == Some(Scanned(n, pos + width))
  {
    assert IsDigit(s[pos..pos + width][0]);
    forall k | pos <= k < pos + width ensures IsDigit(s[k]) {
      assert s[k] == s[pos..pos + width][k - pos];
    }
    DigitRunEndOfDigits(s, pos, pos + width);
    RunValueOfDigits(s, pos, pos + width);
  }

  lemma {:induction false} DigitRunEndOfDigits(s: string, q: nat, limit: nat)
    requires q <= limit <= |s| && forall k :: q <= k < limit ==> IsDigit(s[k])
    ensures DigitRunEnd(s, q, limit) == limit
    decreases limit - q
  {
    if q < limit {
      DigitRunEndOfDigits(s, q + 1, limit);
    }
  }

  /** On digits, `RunValue` is `DigitsValue` of the slice. */
  lemma {:induction false} RunValueOfDigits(s: string, q: nat, e: nat)
    requires q <= e <= |s| && forall k :: q <= k < e ==> IsDigit(s[k])
    ensures AllDigits(s[q..e]) && RunValue(s, q, e) == DigitsValue(s[q..e])
    decreases e - q
  {
    if q < e {
      RunValueOfDigits(s, q, e - 1);
      assert s[q..e][..e - q - 1] == s[q..e - 1];
    }
  }

  /** The zone of a stamp attribute is its signed `HHMM`. */
  lemma ZoneOfStamp(s: string, sign: char, zh: nat, zm: nat)
    requires |s| == 20 && s[14] == ' ' && s[15] == sign && (sign == '+' || sign == '-')
    requires zh < 100 && zm < 60
    requires s[16..18] == PadNat(zh, 2) && s[18..20] == PadNat(zm, 2)
    ensures ZoneOffset(s, 14) == ZoneSeconds(sign, zh, zm)
  {
    FieldOfStamp(s, 16, 2, zh);
    FieldOfStamp(s, 18, 2, zm);
    assert SpacesEnd(s, 15) == 15;
    assert SpacesEnd(s, 14) == 15;
  }

  /** `"20260121200000 +0100"`: 20:00 at UTC+1 is 19:00 UTC on 21 January 2026. */
  lemma ZoneExample()
    ensures XmltvInstant(StampAttr(Date(2026, 1, 21), 20, 0, 0, '+', 1, 0)) == 1769022000
  {
    XmltvInstantOfStamp(Date(2026, 1, 21), 20, 0, 0, '+', 1, 0);
    KnownDays();
  }

  /** Only an attribute with six convertible fields names an instant; anything else leaves 0. */
  lemma UnreadableAttrIsZero(attr: string)
    requires attr == [] || |ScanFields(attr, 0, 0).values| < 6
    ensures XmltvInstant(attr) == 0
  {
  }
}

/**
 * URL synthesis of the Xtream client (xtream_client.cpp): percent-encoding
 * of credentials, the base URL from the configured server and port, the
 * `player_api.php` query, live and catch-up stream URLs, the Kodi
 * `|User-Agent=` header suffix, the credential redaction applied before
 * URLs are logged, and the status-line check of an HTTP response.
 */
module Urls {
  import opened Text
  import opened CivilTime

  /** The connection part of the add-on settings that the URL builders read. */
  datatype Settings = Settings(
    server: string,
    port: int,
    username: string,
    password: string,
    enableUserAgentSpoofing: bool,
    customUserAgent: string,
    catchupStartOffsetHours: i32)

  const DefaultUserAgent := "DispatcharrKodiAddon"

  // ---------------------------------------------------------------------------
  // Percent-encoding (RFC 3986 sections 2.1 and 2.3)
  // ---------------------------------------------------------------------------

  /** The unreserved characters of RFC 3986 section 2.3: letters, digits and `-_.~`. */
  predicate IsUnreserved(c: char) {
    ('A' <= c <= 'Z') || ('a' <= c <= 'z') || ('0' <= c <= '9')
    || c == '-' || c == '_' || c == '.' || c == '~'
  }

  /** One byte as written by `UrlEncode`: itself, or `%` and two upper-case hex digits. */
  function EncodeByte(c: char): (r: string)
    ensures IsUnreserved(c) ==> r == [c]
    ensures !IsUnreserved(c) ==> |r| == 3 && r[0] == '%' && HexVal(r[1]) * 16 + HexVal(r[2]) == ByteOf(c)
  {
    if IsUnreserved(c) then [c] else ['%', HexDigit(ByteOf(c) / 16), HexDigit(ByteOf(c) % 16)]
  }

  /** The percent-encoding of a whole string, byte by byte. */
  function PercentEncoded(s: string): (r: string)
    ensures forall k :: 0 <= k < |r| ==> IsUnreserved(r[k]) || r[k] == '%'
  {
    if s == [] then [] else EncodeByte(s[0]) + PercentEncoded(s[1..])
  }

  lemma {:induction false} PercentEncodedAppend(s: string, c: char)
    ensures PercentEncoded(s + [c]) == PercentEncoded(s) + EncodeByte(c)
    decreases |s|
  {
    if s == [] {
      assert [c][1..] == [];
    } else {
      assert (s + [c])[1..] == s[1..] + [c];
      PercentEncodedAppend(s[1..], c);
    }
  }

  /** `UrlEncode`: appends each byte or its `%XX` form to the output. */
  method UrlEncode(s: string) returns (out: string)
    ensures out == PercentEncoded(s)
  {
    out := [];
    var i := 0;
    while i < |s|
      invariant 0 <= i <= |s|
      invariant out == PercentEncoded(s[..i])
    {
      var c := s[i];
      if IsUnreserved(c) {
        out := out + [c];
      } else {
        out := out + ['%', HexDigit(ByteOf(c) / 16), HexDigit(ByteOf(c) % 16)];
      }
      PercentEncodedAppend(s[..i], c);
      assert s[..i + 1] == s[..i] + [c];
      i := i + 1;
    }
    assert s[..i] == s;
  }

  /** The number of bytes outside the unreserved set. */
  function ReservedCount(s: string): nat {
    if s == [] then 0 else (if IsUnreserved(s[0]) then 0 else 1) + ReservedCount(s[1..])
  }

  /** Each reserved byte grows by two: the output is `|s| + 2 * ReservedCount(s)` bytes. */
  lemma {:induction false} PercentEncodedLength(s: string)
    ensures |PercentEncoded(s)| == |s| + 2 * ReservedCount(s)
  {
    if s != [] {
      PercentEncodedLength(s[1..]);
    }
  }

  predicate IsHexChar(c: char) { HexVal(c) >= 0 }

  /** A percent-decoder (RFC 3986 section 2.1): `%` and two hex digits stand for one byte. */
  function PercentDecoded(t: string): string {
    if t == [] then []
    else if t[0] == '%' && |t| >= 3 && IsHexChar(t[1]) && IsHexChar(t[2]) then
      [(HexVal(t[1]) * 16 + HexVal(t[2])) as char] + PercentDecoded(t[3..])
    else [t[0]] + PercentDecoded(t[1..])
  }

  predicate IsByteString(s: string) { forall k :: 0 <= k < |s| ==> s[k] as int < 256 }

  lemma HexDigitIsHex(d: nat)
    requires d < 16
    ensures IsHexChar(HexDigit(d))
  {
  }

  /** Percent-decoding the encoding of a byte string gives it back. */
  lemma {:induction false} PercentRoundTrip(s: string)
    requires IsByteString(s)
    ensures PercentDecoded(PercentEncoded(s)) == s
  {
    if s != [] {
      var c := s[0];
      var e := EncodeByte(c);
      var rest := PercentEncoded(s[1..]);
      PercentRoundTrip(s[1..]);
      assert PercentEncoded(s) == e + rest;
      if IsUnreserved(c) {
        assert (e + rest)[1..] == rest;
      } else {
        HexDigitIsHex(ByteOf(c) / 16);
        HexDigitIsHex(ByteOf(c) % 16);
        assert (e + rest)[3..] == rest;
        assert ByteOf(c) == c as int;
      }
    }
  }

  // ---------------------------------------------------------------------------
  // Server and base URL
  // ---------------------------------------------------------------------------

  /** `s` with its trailing `/` bytes removed. */
  function WithoutTrailingSlashes(s: string): (r: string)
    ensures |r| <= |s| && r == s[..|r|]
    ensures r == [] || r[|r| - 1] != '/'
    ensures forall k :: |r| <= k < |s| ==> s[k] == '/'
    decreases |s|
  {
    if s != [] && s[|s| - 1] == '/' then WithoutTrailingSlashes(s[..|s| - 1]) else s
  }

  /** The server as the URL builders use it: trimmed, then without trailing slashes. */
  function NormalizedServer(raw: string): string {
    WithoutTrailingSlashes(Trimmed(raw))
  }

  /** `NormalizeServer`: trims, then pops `/` bytes off the end. */
  method NormalizeServer(raw: string) returns (s: string)
    ensures s == NormalizedServer(raw)
  {
    s := Trim(raw);
    while s != [] && s[|s| - 1] == '/'
      invariant WithoutTrailingSlashes(s) == NormalizedServer(raw)
    {
      s := s[..|s| - 1];
    }
  }

  /** The `:port` suffix: present only for a positive port. */
  function PortSuffix(port: int): string {
    if port > 0 then ":" + IntToString(port) else ""
  }

  predicate HasScheme(server: string) {
    StartsWith(server, "http://") || StartsWith(server, "https://")
  }

  /** The text after the first `://`, or all of it. */
  function HostPart(server: string): string {
    match Find(server, "://", 0)
    case None => server
    case Some(i) => server[i + 3..]
  }

  /**
   * `BuildBaseUrl`: empty for a blank server; a server with an `http://` or
   * `https://` scheme is kept, with `:port` appended unless its host part
   * already holds a `:`; any other server gets `http://` in front and
   * `:port` after, whether or not it already names a port.
   */
  function BuildBaseUrl(st: Settings): string {
    var server := NormalizedServer(st.server);
    if server == [] then []
    else if HasScheme(server) then
      if Contains(HostPart(server), ":") then server else server + PortSuffix(st.port)
    else "http://" + server + PortSuffix(st.port)
  }

  lemma {:induction false} ContainsCharAt(s: string, k: nat)
    requires k < |s| && s[k] == ':'
    ensures Contains(s, ":")
  {
    FindIsFirst(s, ":", 0);
    assert OccursAt(s, ":", k) by { assert s[k..k + 1] == [s[k]]; }
  }

  /**
   * What `BuildBaseUrl` makes of the server and port: empty exactly for a
   * blank server, otherwise an `http://` or `https://` URL made of the
   * normalised server, then `:port` for a positive port when the server had
   * no scheme or its host part had no `:`.
   */
  lemma BuildBaseUrlShape(st: Settings)
    ensures var server := NormalizedServer(st.server);
      var r := BuildBaseUrl(st);
      (r == [] <==> server == [])
      && (server != [] ==> HasScheme(r))
      && (server != [] && HasScheme(server) ==>
            r == server + (if Contains(HostPart(server), ":") then "" else PortSuffix(st.port)))
      && (server != [] && !HasScheme(server) ==> r == "http://" + server + PortSuffix(st.port))
  {
    var server := NormalizedServer(st.server);
    var r := BuildBaseUrl(st);
    if server != [] {
      if HasScheme(server) {
        if Contains(HostPart(server), ":") {
          assert r == server;
        } else {
          assert r == server + PortSuffix(st.port);
          if StartsWith(server, "http://") {
            PrefixSlice(r, server, 0, 7);
          } else {
            PrefixSlice(r, server, 0, 8);
          }
        }
      } else {
        assert r[..7] == "http://";
      }
    }
  }

  /**
   * A server without a scheme that already names a port gets a second one:
   * `host:8080` with port 80 becomes `http://host:8080:80`.
   */
  lemma SecondPortAppended(st: Settings, k: nat)
    requires k < |NormalizedServer(st.server)| && NormalizedServer(st.server)[k] == ':'
    requires !HasScheme(NormalizedServer(st.server)) && st.port > 0
    ensures var r := BuildBaseUrl(st);
      var n := 7 + |NormalizedServer(st.server)|;
      7 + k < n < |r| && r[7 + k] == ':' && r[n] == ':' && r[n + 1..] == IntToString(st.port)
  {
    var server := NormalizedServer(st.server);
    BuildBaseUrlShape(st);
    var r := BuildBaseUrl(st);
    assert r == "http://" + server + (":" + IntToString(st.port));
    assert r[7 + k] == server[k];
  }

  // ---------------------------------------------------------------------------
  // player_api.php and the User-Agent suffix
  // ---------------------------------------------------------------------------

  /** `BuildPlayerApiUrl`: the API endpoint with the encoded credentials, or empty. */
  function BuildPlayerApiUrl(st: Settings): string {
    var base := BuildBaseUrl(st);
    if base == [] then []
    else base + "/player_api.php?username=" + PercentEncoded(st.username)
         + "&password=" + PercentEncoded(st.password)
  }

  /** `BuildPlayerApiUrlWithAction`: the API URL with `&action=` and the encoded action, or empty. */
  function BuildPlayerApiUrlWithAction(st: Settings, action: string): string {
    var base := BuildPlayerApiUrl(st);
    if base == [] then [] else base + "&action=" + PercentEncoded(action)
  }

  /** `EffectiveUserAgent`: nothing unless spoofing is on, then the trimmed custom agent or the default. */
  function EffectiveUserAgent(st: Settings): (ua: string)
    ensures !st.enableUserAgentSpoofing <==> ua == []
    ensures st.enableUserAgentSpoofing ==> ua == (if Trimmed(st.customUserAgent) == [] then DefaultUserAgent else Trimmed(st.customUserAgent))
  {
    if !st.enableUserAgentSpoofing then []
    else
      var ua := Trimmed(st.customUserAgent);
      if ua == [] then DefaultUserAgent else ua
  }

  /** `AppendUserAgentHeader`: Kodi's `|User-Agent=` suffix with the encoded agent, when there is one. */
  function AppendUserAgentHeader(url: string, st: Settings): string {
    var ua := EffectiveUserAgent(st);
    if ua == [] then url else url + "|User-Agent=" + PercentEncoded(ua)
  }

  /**
   * The suffix never touches the URL itself: the result is the URL, then
   * either nothing (spoofing off) or `|User-Agent=` and the encoded agent.
   */
  lemma UserAgentSuffix(url: string, st: Settings)
    ensures var r := AppendUserAgentHeader(url, st);
      StartsWith(r, url)
      && (!st.enableUserAgentSpoofing ==> r == url)
      && (st.enableUserAgentSpoofing ==> r[|url|..] == "|User-Agent=" + PercentEncoded(EffectiveUserAgent(st)))
  {
    var r := AppendUserAgentHeader(url, st);
    if st.enableUserAgentSpoofing {
      assert r == url + ("|User-Agent=" + PercentEncoded(EffectiveUserAgent(st)));
    }
  }

  // ---------------------------------------------------------------------------
  // Stream URLs
  // ---------------------------------------------------------------------------

  /** The container suffix: `.m3u8` exactly when the format is `hls` in any case. */
  function StreamExtension(format: string): string {
    if ToLower(format) == "hls" then ".m3u8" else ".ts"
  }

  /** `BuildLiveStreamUrl`: `<base>/live/<user>/<pass>/<id><ext>` with the agent suffix, or empty. */
  function BuildLiveStreamUrl(st: Settings, streamId: int, format: string): string {
    var base := BuildBaseUrl(st);
    if base == [] || streamId <= 0 then []
    else
      AppendUserAgentHeader(
        base + "/live/" + PercentEncoded(st.username) + "/" + PercentEncoded(st.password) + "/"
          + IntToString(streamId) + StreamExtension(format), st)
  }

  /** The live URL is empty exactly when the base URL is empty or the id is not positive. */
  lemma BuildLiveStreamUrlEmpty(st: Settings, streamId: int, format: string)
    ensures BuildLiveStreamUrl(st, streamId, format) == [] <==> BuildBaseUrl(st) == [] || streamId <= 0
  {
    if BuildBaseUrl(st) != [] && streamId > 0 {
      var url := BuildBaseUrl(st) + "/live/" + PercentEncoded(st.username) + "/" + PercentEncoded(st.password)
        + "/" + IntToString(streamId) + StreamExtension(format);
      UserAgentSuffix(url, st);
    }
  }

  /** C++ integer division, which truncates toward zero (the divisor here is positive). */
  function TruncDiv(a: int, b: int): (q: int)
    requires b > 0
    ensures a >= 0 ==> q == a / b
    ensures a < 0 ==> q == -((-a) / b)
  {
    if a >= 0 then a / b else -((-a) / b)
  }

  /** The configured start offset, with a negative one treated as 0. */
  function OffsetHours(st: Settings): nat {
    if st.catchupStartOffsetHours < 0 then 0 else st.catchupStartOffsetHours
  }

  /** `offsetHours * 3600`, a product of two `int`s and so itself wrapped to 32 bits. */
  function OffsetSeconds(st: Settings): int {
    WrapInt32(OffsetHours(st) * 3600)
  }

  /**
   * The offset in seconds is exact up to 596523 hours; one hour more and
   * the `int` product wraps to a negative number, moving the window start
   * back instead of forward.
   */
  lemma OffsetSecondsMeaning(st: Settings)
    ensures OffsetHours(st) <= 596523 ==> OffsetSeconds(st) == OffsetHours(st) * 3600
    ensures OffsetHours(st) == 596524 ==> OffsetSeconds(st) == 596524 * 3600 - 0x1_0000_0000 < 0
  {
    if OffsetHours(st) <= 596523 {
      WrapInt32Identity(OffsetHours(st) * 3600);
    } else if OffsetHours(st) == 596524 {
      WrapInt32Identity(596524 * 3600 - 0x1_0000_0000);
      assert WrapInt32(596524 * 3600) == WrapInt32(596524 * 3600 - 0x1_0000_0000);
    }
  }

  /** The catch-up window start after the configured offset. */
  function AdjustedStart(st: Settings, startTime: int): int {
    startTime + OffsetSeconds(st)
  }

  /** `durationMinutes`: the whole minutes from the adjusted start to the end, truncated and cast to `int`. */
  function CatchupMinutes(st: Settings, startTime: int, endTime: int): int {
    WrapInt32(TruncDiv(endTime - AdjustedStart(st, startTime), 60))
  }

  /** The path shared by both catch-up forms, up to the duration and its `/`. */
  function TimeshiftPrefix(st: Settings, base: string, minutes: int): string {
    base + "/timeshift/" + PercentEncoded(st.username) + "/" + PercentEncoded(st.password) + "/"
      + IntToString(minutes) + "/"
  }

  /** What follows the date field: `/<id><ext>` and the agent suffix. */
  function CatchupTail(st: Settings, streamId: int, format: string): string {
    AppendUserAgentHeader("/" + IntToString(streamId) + StreamExtension(format), st)
  }

  /**
   * `BuildCatchupUrl`: empty for an empty base URL, a non-positive id or
   * start, an end not after the start, or a window of no whole minute after
   * the offset; otherwise `<base>/timeshift/<user>/<pass>/<minutes>/<UTC
   * YYYY-MM-DD:HH-MM>/<id><ext>` with the agent suffix.
   */
  function BuildCatchupUrl(st: Settings, streamId: int, startTime: int, endTime: int, format: string): string {
    var base := BuildBaseUrl(st);
    if base == [] || streamId <= 0 || startTime <= 0 || endTime <= startTime then []
    else
      var minutes := CatchupMinutes(st, startTime, endTime);
      if minutes <= 0 then []
      else
        AppendUserAgentHeader(
          TimeshiftPrefix(st, base, minutes) + FormatCatchupStart(AdjustedStart(st, startTime)) + "/"
            + IntToString(streamId) + StreamExtension(format), st)
  }

  const DatePlaceholder := "{Y}-{m}-{d}:{H}-{M}"

  /**
   * `BuildCatchupUrlTemplate`: the same path with `{Y}-{m}-{d}:{H}-{M}` for
   * the date, which the player fills in when seeking; empty for an empty
   * base URL, a non-positive id or a non-positive duration.
   */
  function BuildCatchupUrlTemplate(st: Settings, streamId: int, minutes: int, format: string): string {
    var base := BuildBaseUrl(st);
    if base == [] || streamId <= 0 || minutes <= 0 then []
    else
      AppendUserAgentHeader(
        TimeshiftPrefix(st, base, minutes) + DatePlaceholder + "/" + IntToString(streamId)
          + StreamExtension(format), st)
  }

  /** The catch-up URL exists exactly when every guard of the source passes. */
  lemma BuildCatchupUrlEmpty(st: Settings, streamId: int, startTime: int, endTime: int, format: string)
    ensures BuildCatchupUrl(st, streamId, startTime, endTime, format) == []
        <==> BuildBaseUrl(st) == [] || streamId <= 0 || startTime <= 0 || endTime <= startTime
             || CatchupMinutes(st, startTime, endTime) <= 0
  {
    var base := BuildBaseUrl(st);
    if !(base == [] || streamId <= 0 || startTime <= 0 || endTime <= startTime
         || CatchupMinutes(st, startTime, endTime) <= 0) {
      var minutes := CatchupMinutes(st, startTime, endTime);
      var url := TimeshiftPrefix(st, base, minutes) + FormatCatchupStart(AdjustedStart(st, startTime)) + "/"
        + IntToString(streamId) + StreamExtension(format);
      UserAgentSuffix(url, st);
    }
  }

  /**
   * The duration counts whole minutes from the adjusted start: with
   * `end > adjusted start` it is `(end - adjusted start) / 60` (while it
   * fits in an `int`), and an end less than a minute after the adjusted
   * start (but not 2^31 seconds before it) gives no minute, so no URL.
   */
  lemma CatchupMinutesMeaning(st: Settings, startTime: int, endTime: int)
    ensures var d := endTime - AdjustedStart(st, startTime);
      (d >= 0 && d / 60 < 0x8000_0000 ==> CatchupMinutes(st, startTime, endTime) == d / 60)
      && (-0x8000_0000 < d < 60 ==> CatchupMinutes(st, startTime, endTime) <= 0)
  {
    var d := endTime - AdjustedStart(st, startTime);
    if d >= 0 && d / 60 < 0x8000_0000 {
      WrapInt32Identity(d / 60);
    }
    if -0x8000_0000 < d < 60 {
      var q := TruncDiv(d, 60);
      assert -0x8000_0000 < q <= 0;
      WrapInt32Identity(q);
    }
  }

  /** A negative start offset behaves exactly like no offset. */
  lemma NegativeOffsetIsZero(st: Settings, streamId: int, startTime: int, endTime: int, format: string)
    requires st.catchupStartOffsetHours < 0
    ensures BuildCatchupUrl(st, streamId, startTime, endTime, format)
         == BuildCatchupUrl(st.(catchupStartOffsetHours := 0), streamId, startTime, endTime, format)
  {
    var st0 := st.(catchupStartOffsetHours := 0);
    NegativeOffsetParts(st, startTime, endTime);
    var base := BuildBaseUrl(st);
    if !(base == [] || streamId <= 0 || startTime <= 0 || endTime <= startTime
         || CatchupMinutes(st, startTime, endTime) <= 0) {
      var minutes := CatchupMinutes(st, startTime, endTime);
      NegativeOffsetPrefix(st, base, minutes);
    }
  }

  /** Every part of the catch-up URL but the path ignores a negative offset. */
  lemma NegativeOffsetParts(st: Settings, startTime: int, endTime: int)
    requires st.catchupStartOffsetHours < 0
    ensures var st0 := st.(catchupStartOffsetHours := 0);
      BuildBaseUrl(st) == BuildBaseUrl(st0)
      && AdjustedStart(st, startTime) == AdjustedStart(st0, startTime)
      && CatchupMinutes(st, startTime, endTime) == CatchupMinutes(st0, startTime, endTime)
      && EffectiveUserAgent(st) == EffectiveUserAgent(st0)
  {
  }

  lemma NegativeOffsetPrefix(st: Settings, base: string, minutes: int)
    ensures TimeshiftPrefix(st, base, minutes) == TimeshiftPrefix(st.(catchupStartOffsetHours := 0), base, minutes)
  {
  }

  /** The agent suffix goes at the very end, so text in front of the tail passes through. */
  lemma AppendUserAgentHeaderAfter(front: string, tail: string, st: Settings)
    ensures AppendUserAgentHeader(front + tail, st) == front + AppendUserAgentHeader(tail, st)
  {
  }

  lemma Regroup3(x: string, y: string, z: string, w: string)
    ensures x + y + z + w == x + (y + z + w)
  {
  }

  /**
   * The live URL carries the credentials as two path segments that hold no
   * `/` and decode back to the user name and password, followed by the same
   * `/<id><ext>` tail and agent suffix as a catch-up URL.
   */
  lemma LiveUrlReadsBack(st: Settings, streamId: int, format: string)
    requires BuildBaseUrl(st) != [] && streamId > 0
    requires IsByteString(st.username) && IsByteString(st.password)
    ensures var user := PercentEncoded(st.username);
      var pass := PercentEncoded(st.password);
      BuildLiveStreamUrl(st, streamId, format)
        == BuildBaseUrl(st) + "/live/" + user + "/" + pass + CatchupTail(st, streamId, format)
      && PercentDecoded(user) == st.username && PercentDecoded(pass) == st.password
      && '/' !in user && '/' !in pass
  {
    LiveUrlShape(st, streamId, format);
    CredentialSegment(st.username);
    CredentialSegment(st.password);
  }

  lemma LiveUrlShape(st: Settings, streamId: int, format: string)
    requires BuildBaseUrl(st) != [] && streamId > 0
    ensures BuildLiveStreamUrl(st, streamId, format)
        == BuildBaseUrl(st) + "/live/" + PercentEncoded(st.username) + "/" + PercentEncoded(st.password)
           + CatchupTail(st, streamId, format)
  {
    var front := BuildBaseUrl(st) + "/live/" + PercentEncoded(st.username) + "/" + PercentEncoded(st.password);
    Regroup3(front, "/", IntToString(streamId), StreamExtension(format));
    AppendUserAgentHeaderAfter(front, "/" + IntToString(streamId) + StreamExtension(format), st);
  }

  /** An encoded credential holds no `/` and decodes back. */
  lemma CredentialSegment(s: string)
    requires IsByteString(s)
    ensures PercentDecoded(PercentEncoded(s)) == s && '/' !in PercentEncoded(s)
  {
    PercentRoundTrip(s);
  }

  /**
   * The concrete URL is the template with the placeholder replaced by the
   * UTC start of the window: both are the same prefix (through the
   * duration), then the date field, then the same tail (`/<id><ext>` and
   * the agent suffix).
   */
  lemma CatchupUrlFillsTemplate(st: Settings, streamId: int, startTime: int, endTime: int, format: string)
    requires BuildCatchupUrl(st, streamId, startTime, endTime, format) != []
    ensures var minutes := CatchupMinutes(st, startTime, endTime);
      var prefix := TimeshiftPrefix(st, BuildBaseUrl(st), minutes);
      BuildCatchupUrlTemplate(st, streamId, minutes, format)
        == prefix + DatePlaceholder + CatchupTail(st, streamId, format)
      && BuildCatchupUrl(st, streamId, startTime, endTime, format)
        == prefix + FormatCatchupStart(AdjustedStart(st, startTime)) + CatchupTail(st, streamId, format)
  {
    var minutes := CatchupMinutes(st, startTime, endTime);
    var prefix := TimeshiftPrefix(st, BuildBaseUrl(st), minutes);
    var tail := "/" + IntToString(streamId) + StreamExtension(format);
    var stamp := FormatCatchupStart(AdjustedStart(st, startTime));
    assert BuildCatchupUrl(st, streamId, startTime, endTime, format)
        == AppendUserAgentHeader(prefix + stamp + "/" + IntToString(streamId) + StreamExtension(format), st);
    Regroup3(prefix + stamp, "/", IntToString(streamId), StreamExtension(format));
    AppendUserAgentHeaderAfter(prefix + stamp, tail, st);
    assert BuildCatchupUrlTemplate(st, streamId, minutes, format)
        == AppendUserAgentHeader(prefix + DatePlaceholder + "/" + IntToString(streamId) + StreamExtension(format), st);
    Regroup3(prefix + DatePlaceholder, "/", IntToString(streamId), StreamExtension(format));
    AppendUserAgentHeaderAfter(prefix + DatePlaceholder, tail, st);
  }

  // ---------------------------------------------------------------------------
  // Credential redaction
  // ---------------------------------------------------------------------------

  /**
   * The `redactParam` loop as a function: from `pos` on, the value after
   * each occurrence of `needle` (up to the next `&` or the end) becomes
   * `***`, and the search resumes after the stars.
   */
  function Redacted(out: string, needle: string, pos: nat): string
    requires |needle| > 0
    decreases |out| - pos
  {
    match Find(out, needle, pos)
    case None => out
    case Some(p) =>
      var valueStart := p + |needle|;
      var valueEnd := match FindChar(out, '&', valueStart) case Some(e) => e case None => |out|;
      Redacted(out[..valueStart] + "***" + out[valueEnd..], needle, valueStart + 3)
  }

  /** `redactParam(key)`: replaces the value of every `key=` in place. */
  method RedactParam(url: string, key: string) returns (out: string)
    ensures out == Redacted(url, key + "=", 0)
  {
    var needle := key + "=";
    out := url;
    var pos := 0;
    while true
      invariant Redacted(out, needle, pos) == Redacted(url, needle, 0)
      decreases |out| - pos
    {
      var found := Find(out, needle, pos);
      if found.None? {
        return;
      }
      out, pos := RedactNext(out, needle, pos);
    }
  }

  /** One round of the loop: the value after the next `key=` becomes `***`, and the cursor moves past it. */
  method RedactNext(out: string, needle: string, pos: nat) returns (next: string, pos': nat)
    requires |needle| > 0 && Find(out, needle, pos).Some?
    ensures |next| - pos' < |out| - pos
    ensures Redacted(next, needle, pos') == Redacted(out, needle, pos)
  {
    var valueStart := Find(out, needle, pos).value + |needle|;
    var valueEnd := |out|;
    var amp := FindChar(out, '&', valueStart);
    if amp.Some? {
      valueEnd := amp.value;
    }
    next := out[..valueStart] + "***" + out[valueEnd..];
    RedactedStep(out, needle, pos, valueEnd, next);
    pos' := valueStart + 3;
  }

  /** One round of the scan: the value after the next occurrence becomes `***`. */
  lemma RedactedStep(out: string, needle: string, pos: nat, valueEnd: nat, next: string)
    requires |needle| > 0 && Find(out, needle, pos).Some?
    requires valueEnd == match FindChar(out, '&', Find(out, needle, pos).value + |needle|)
      case Some(e) => e case None => |out|
    requires var valueStart := Find(out, needle, pos).value + |needle|;
      valueStart <= valueEnd <= |out| && next == out[..valueStart] + "***" + out[valueEnd..]
    ensures |next| - (Find(out, needle, pos).value + |needle| + 3) < |out| - pos
    ensures Redacted(out, needle, pos) == Redacted(next, needle, Find(out, needle, pos).value + |needle| + 3)
  {
  }

  /** `RedactUrlCredentials`: the user name and then the password. */
  method RedactUrlCredentials(url: string) returns (out: string)
    ensures out == Redacted(Redacted(url, "username=", 0), "password=", 0)
  {
    assert "username" + "=" == "username=" && "password" + "=" == "password=";
    out := RedactParam(url, "username");
    out := RedactParam(out, "password");
  }

  /** `needle` occurs in `s` at `p` and nowhere else. */
  ghost predicate OnlyOccurrence(s: string, needle: string, p: nat) {
    OccursAt(s, needle, p) && forall k :: OccursAt(s, needle, k) ==> k == p
  }

  /**
   * The scan over a string with a single occurrence of the needle, from a
   * cursor at or before it: the value after it, up to the `&` that ends it
   * or the end, becomes `***` and nothing else changes.
   */
  lemma RedactSingle(a: string, needle: string, v: string, c: string, out: string, out': string, pos: nat)
    requires |needle| > 0 && pos <= |a|
    requires out == a + needle + v + c && out' == a + needle + "***" + c
    requires forall k :: 0 <= k < |v| ==> v[k] != '&'
    requires c == [] || c[0] == '&'
    requires OnlyOccurrence(out, needle, |a|)
    requires forall k :: OccursAt(out', needle, k) ==> k == |a|
    ensures Redacted(out, needle, pos) == out'
  {
    FindAt(out, needle, pos, |a|);
    var vs := |a| + |needle|;
    var ve := vs + |v|;
    forall k | vs <= k < ve ensures out[k] != '&' {
      assert out[k] == v[k - vs];
    }
    if c == [] {
      assert FindChar(out, '&', vs).None?;
    } else {
      assert out[ve] == '&';
      assert FindChar(out, '&', vs) == Some(ve);
    }
    assert out[..vs] == a + needle && out[ve..] == c;
    assert out[..vs] + "***" + out[ve..] == out';
    FindNone(out', needle, vs + 3);
  }

  lemma Regroup(x: string, y: string, z: string, w: string)
    ensures x + y + z + w == x + y + (z + w)
  {
  }

  /**
   * A query holding `username=` and `password=` once each, with values
   * that end at `&` or the end of the URL, is logged with both values
   * replaced by `***` and everything else as it was.
   */
  lemma RedactUrlCredentialsHidesBoth(a: string, u: string, b: string, p: string, c: string,
                                      url: string, mid: string, logged: string)
    requires url == a + "username=" + u + b + "password=" + p + c
    requires mid == a + "username=***" + b + "password=" + p + c
    requires logged == a + "username=***" + b + "password=***" + c
    requires forall k :: 0 <= k < |u| ==> u[k] != '&'
    requires forall k :: 0 <= k < |p| ==> p[k] != '&'
    requires b != [] && b[0] == '&' && (c == [] || c[0] == '&')
    requires OnlyOccurrence(url, "username=", |a|)
    requires forall k :: OccursAt(mid, "username=", k) ==> k == |a|
    requires OnlyOccurrence(mid, "password=", |a| + 12 + |b|)
    requires forall k :: OccursAt(logged, "password=", k) ==> k == |a| + 12 + |b|
    ensures Redacted(Redacted(url, "username=", 0), "password=", 0) == logged
  {
    UserNameHidden(a, u, b, p, c, url, mid);
    var a2 := a + "username=***" + b;
    assert |a2| == |a| + 12 + |b|;
    assert mid == a2 + "password=" + p + c;
    assert logged == a2 + "password=" + "***" + c;
    RedactSingle(a2, "password=", p, c, mid, logged, 0);
  }

  lemma UserNameHidden(a: string, u: string, b: string, p: string, c: string, url: string, mid: string)
    requires url == a + "username=" + u + b + "password=" + p + c
    requires mid == a + "username=***" + b + "password=" + p + c
    requires forall k :: 0 <= k < |u| ==> u[k] != '&'
    requires b != [] && b[0] == '&'
    requires OnlyOccurrence(url, "username=", |a|)
    requires forall k :: OccursAt(mid, "username=", k) ==> k == |a|
    ensures Redacted(url, "username=", 0) == mid
  {
    var rest := b + "password=" + p + c;
    assert url == a + "username=" + u + rest by {
      Regroup(a + "username=" + u, b, "password=" + p, c);
    }
    assert mid == a + "username=" + "***" + rest by {
      assert a + "username=***" == a + "username=" + "***";
      Regroup(a + "username=" + "***", b, "password=" + p, c);
    }
    RedactSingle(a, "username=", u, rest, url, mid, 0);
  }

  // ---------------------------------------------------------------------------
  // HTTP status line (RFC 9110 section 15)
  // ---------------------------------------------------------------------------

  /**
   * `IsHttpStatusOk`: the text between the first space and the next space
   * (which must exist, with at least one byte between) is read with
   * `std::stoi`; the status is good when it is in the 2xx class.
   */
  function IsHttpStatusOk(protocol: string): bool {
    match FindChar(protocol, ' ', 0)
    case None => false
    case Some(first) =>
      match FindChar(protocol, ' ', first + 1)
      case None => false
      case Some(second) =>
        if second <= first + 1 then false
        else
          match Stoi(protocol[first + 1..second])
          case None => false
          case Some(code) => 200 <= code < 300
  }

  /**
   * A status line `<version> <code> <reason>` with a version free of
   * spaces is accepted exactly when the code is in the 2xx class.
   */
  lemma StatusLineClass(version: string, code: int, reason: string)
    requires IsInt32(code)
    requires forall k :: 0 <= k < |version| ==> version[k] != ' '
    ensures IsHttpStatusOk(version + " " + IntToString(code) + " " + reason) <==> 200 <= code < 300
  {
    var digits := IntToString(code);
    forall k | 0 <= k < |digits| ensures digits[k] != ' ' {
      if code >= 0 || k > 0 {
        assert IsDigit(NatToString(if code < 0 then -code else code)[k - (if code < 0 then 1 else 0)]);
      }
    }
    StatusLineFields(version, digits, reason);
    StoiOfIntToString(code, []);
    assert digits + [] == digits;
  }

  /** The text between the first two spaces of `<version> <digits> <reason>`. */
  lemma StatusLineFields(version: string, digits: string, reason: string)
    requires forall k :: 0 <= k < |version| ==> version[k] != ' '
    requires digits != [] && forall k :: 0 <= k < |digits| ==> digits[k] != ' '
    ensures var s := version + " " + digits + " " + reason;
      IsHttpStatusOk(s) <==> Stoi(digits).Some? && 200 <= Stoi(digits).value < 300
  {
    var s := version + " " + digits + " " + reason;
    var first := |version|;
    var second := first + 1 + |digits|;
    assert s[first] == ' ';
    assert FindChar(s, ' ', 0) == Some(first);
    forall k | first + 1 <= k < second ensures s[k] != ' ' {
      assert s[k] == digits[k - first - 1];
    }
    assert s[second] == ' ';
    assert FindChar(s, ' ', first + 1) == Some(second);
    assert s[first + 1..second] == digits;
  }

  /** A status line without a reason phrase, and so without a second space, is refused. */
  lemma NoReasonRefused()
    ensures !IsHttpStatusOk("HTTP/1.1 200")
  {
    var s := "HTTP/1.1 200";
    assert s[8] == ' ' && forall k :: 0 <= k < |s| && k != 8 ==> s[k] != ' ';
    assert FindChar(s, ' ', 0) == Some(8);
    assert FindChar(s, ' ', 9).None?;
  }
}

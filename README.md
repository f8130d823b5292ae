# A verified model of the Xtream Codes / Dispatcharr PVR add-on for Kodi

This project models, in Dafny, the sequential core of a Kodi PVR add-on. The add-on reads an IPTV provider's
Xtream Codes JSON API, and optionally a Dispatcharr server's DVR API. It builds a channel catalogue with
channel groups and an electronic programme guide from the provider's XMLTV feed. It keeps a binary disk cache
of the catalogue and hands out live and catch-up stream URLs to Kodi.

The model covers the byte-level and string-level routines that turn untrusted provider payloads into
that catalogue, and the small state machines that decide when to refresh and what to publish:

- `Text`, `Unicode`, `Hashing`: the shared string helpers (trim, lower-case, find, replace, white-space
  collapse, `std::stoi`, the 32-bit wrap of `static_cast<int>`), UTF-8 encoding of a code point, and 64-bit FNV-1a.
- `JsonSpans`, `JsonFields`: the top-level object scanner and the typed field extractors of the Xtream client,
  including JSON string unescaping with surrogate pairs.
- `Catalog`: the per-object parse steps of the category and stream fetches.
- `Urls`: percent-encoding, the server and base URL normalisation, the live and catch-up stream URLs,
  credential redaction and the HTTP status test.
- `CivilTime`, `XmltvTime`, `EpgNames`, `Xmltv`: integer civil-date arithmetic standing in for `gmtime`/`timegm`,
  XMLTV timestamps with zone offsets, channel-name normalisation, and the XMLTV channel correlator and programme map.
- `SettingsXml`: reading a setting out of Kodi's `settings.xml` text.
- `CacheCodec`: the little-endian cursor primitives and the disk-cache encoder and decoder.
- `Patterns`, `ChannelBuild`: pattern splitting, wildcard matching, the channel filters, name sanitising, the
  fetch strategy and the channel/group build loop.
- `Snapshots`, `Orchestrator`, `Playback`: the published catalogue, the refresh state machine (settings
  signature, generation counter, cache attempt, worker cycle, publish), the refresh throttle, the pending catch-up
  map and the EPG playability decision.
- `DvrJson`, `Dispatcharr`: the Dispatcharr JSON helpers (array iteration, raw field extraction, escaping) and the
  client: base URL, the channel map, the days-of-week scan and the success predicates of its calls.

Each imperative routine of the source (a loop over bytes, a cursor threaded through reads, an object whose
fields change) is a Dafny `method` proved against a specification function; the properties the add-on relies on
(round trips, first-match rules, what gets published and when) are lemmas about those functions.

Where the specification of the add-on and its code disagree, the model follows the code, with one exception. For
each of the four defects listed under "## Findings", the model holds both halves: a member for the code as written,
with the input that exposes the defect, and a corrected member with the intended property proved. The pipeline
members (the filter, the fetch step, the settings resolution, the build and the cache write) use the corrected
halves. "## Left out" names each such member. The differences in the model that follow the code:

- An XMLTV `<channel>` that matches no stream is still keyed under its own XMLTV id, and its programmes are
  collected and published under that key (`Xmltv.UnmatchedChannelGetsProgrammes`).
- The Dispatcharr client's `GetBaseUrl` strips trailing slashes but does not trim white space, unlike the
  Xtream client's `NormalizeServer` (`Dispatcharr.Client.GetBaseUrl`).
- The Xtream `BuildBaseUrl` looks for a port in the host part only when the server carries a scheme; a server
  without a scheme always gets `:port` appended when the port is positive, so `host:8080` with port 80 becomes
  `http://host:8080:80` (`Urls.SecondPortAppended`).
- The Dispatcharr `ExtractBoolField` reads only `true`, `false`, `1` and `0`; a quoted digit is read by the Xtream
  reader but not by this one (`DvrJson.QuotedDigitNotRead`).

## Model

| member | source | states |
|---|---|---|
| Text.Trim | omega/pvr.disptacharr-master/src/addon.cpp:38-46 | the in-place erase/pop loops return exactly `Trimmed(s)`, the slice between the leading and trailing white space |
| Text.TrimmedSlice | nexus/pvr.disptacharr-1.2.1/src/xtream_client.cpp:36-44 | the trimmed text is the contiguous slice of the input between its leading and trailing white space |
| Text.TrimmedRemovesOnlySpace | nexus/pvr.disptacharr-1.2.1/src/xtream_client.cpp:36-44 | every byte `Trim` removes, at either end, is white space |
| Text.TrimmedUnchanged | nexus/pvr.disptacharr-1.2.1/src/xtream_client.cpp:36-44 | a text with no white space at either end trims to itself, so trimming is idempotent |
| Text.Trimmed | nexus/pvr.disptacharr-1.2.1/src/xtream_client.cpp:36-44 | the trimmed text is no longer than the input and neither starts nor ends with white space |
| Text.FindIsFirst | nexus/pvr.disptacharr-1.2.1/src/xtream_client.cpp:66 | `find` returns the first occurrence at or after the cursor, and fails only when there is none |
| Text.FindChar | omega/pvr.disptacharr-master/src/addon.cpp:224-237 | the character search returns the first position of the character from the cursor, or none when it does not occur |
| Text.Find | omega/pvr.disptacharr-master/src/addon.cpp:224-237 | a position found by `find` is an occurrence at or after the start |
| Text.FindAt | omega/pvr.disptacharr-master/src/addon.cpp:224-237 | `find` stops at the first occurrence from the start |
| Text.FindNone | omega/pvr.disptacharr-master/src/addon.cpp:224-237 | `find` fails when there is no occurrence from the start on |
| Text.ReplaceAll | nexus/pvr.disptacharr-1.2.1/src/xtream_client.cpp:62-71 | the `replace_all` loop yields the left-to-right, non-overlapping replacement `ReplaceScan(t, a, b)` |
| Text.SpliceKeepsScan | nexus/pvr.disptacharr-1.2.1/src/xtream_client.cpp:66-70 | one splice step of `replace_all` keeps "done prefix + replacement of the rest" unchanged, so the loop never rescans inserted text |
| Text.ReplaceWithoutOccurrence | nexus/pvr.disptacharr-1.2.1/src/xtream_client.cpp:62-71 | replacing in a text without an occurrence of the pattern leaves it unchanged |
| Text.CollapseWhitespace | nexus/pvr.disptacharr-1.2.1/src/xtream_client.cpp:78-92 | the collapse loop returns `Collapse(s, false)`, in which no two spaces are adjacent and every white-space run became one space |
| Text.CollapseIsCollapsed | nexus/pvr.disptacharr-1.2.1/src/xtream_client.cpp:78-92 | the collapsed text has no two adjacent white-space bytes, and does not start with one after a space |
| Text.SkipSpaces | nexus/pvr.disptacharr-1.2.1/src/xtream_client.cpp:614-615 | the cursor after skipping white space is the first non-space position, and everything skipped is white space |
| Text.DigitsEnd | nexus/pvr.disptacharr-1.2.1/src/xtream_client.cpp:502-507 | the digit scan stops at the first non-digit, and everything passed is a decimal digit |
| Text.DigitsValueOfNatToString | nexus/pvr.disptacharr-1.2.1/src/xtream_client.cpp:500-507 | reading the decimal digits `std::to_string` wrote gives the number back |
| Text.WrapInt32 | nexus/pvr.disptacharr-1.2.1/src/xtream_client.cpp:510-530 | `static_cast<int>` of a wider integer is a 32-bit value |
| Text.WrapInt32Congruent | nexus/pvr.disptacharr-1.2.1/src/xtream_client.cpp:510-530 | the 32-bit wrap changes a value by a multiple of 2^32, i.e. it is two's-complement truncation |
| Text.WrapOfU32 | omega/pvr.disptacharr-master/src/addon.cpp:148-155 | an `int32_t` stored as `uint32_t` and read back as `int32_t` is unchanged |
| Text.Stoi | nexus/pvr.disptacharr-1.2.1/src/xtream_client.cpp:323-339 | `std::stoi` yields only values in `int` range; no digit, or a value out of range, is a failure |
| Text.StoiOfIntToString | nexus/pvr.disptacharr-1.2.1/src/xtream_client.cpp:323-339 | `std::stoi` reads back what `std::to_string` wrote, whatever non-digit text follows |
| Hashing.DeterministicHash64 | omega/pvr.disptacharr-master/src/addon.cpp:56-68 | the byte loop computes 64-bit FNV-1a of the text |
| Hashing.FnvFromAppend | omega/pvr.disptacharr-master/src/addon.cpp:56-68 | hashing `a + b` is hashing `a` and continuing from that state with `b` |
| Hashing.XorByte | omega/pvr.disptacharr-master/src/addon.cpp:62-66 | xoring in a byte changes only the low eight bits of the state |
| Hashing.HashHex | omega/pvr.disptacharr-master/src/addon.cpp:70-76 | `HashHex` is sixteen characters long |
| Hashing.HexDigits | omega/pvr.disptacharr-master/src/addon.cpp:70-76 | the hex text has exactly the number of digits asked for |
| Hashing.HexDigitsRoundTrip | omega/pvr.disptacharr-master/src/addon.cpp:70-76 | the zero-padded hex digits read back as the value modulo 16^n |
| Hashing.HashHexReadsBack | omega/pvr.disptacharr-master/src/addon.cpp:70-76 | `HashHex` is sixteen lower-case hex digits that read back as the full 64-bit hash |
| Hashing.HashHexInjective | omega/pvr.disptacharr-master/src/addon.cpp:70-76 | two texts have the same `HashHex` exactly when they have the same 64-bit hash |
| Unicode.Utf8 | nexus/pvr.disptacharr-1.2.1/src/xtream_client.cpp:639-662 | one code point is written as one to four bytes |
| Unicode.Utf8RoundTrip | nexus/pvr.disptacharr-1.2.1/src/xtream_client.cpp:639-662 | every Unicode scalar value is written in its shortest UTF-8 form (section 3 of RFC 3629), which a reference decoder reads back |
| Unicode.TwoByteForm | nexus/pvr.disptacharr-1.2.1/src/xtream_client.cpp:644-648 | a code point from 0x80 to 0x7FF is written as two bytes that decode back to it |
| Unicode.ThreeByteForm | nexus/pvr.disptacharr-1.2.1/src/xtream_client.cpp:649-654 | a code point from 0x800 to 0xFFFF, surrogates excluded, is written as three bytes that decode back to it |
| Unicode.FourByteForm | nexus/pvr.disptacharr-1.2.1/src/xtream_client.cpp:655-661 | a supplementary code point is written as four bytes that decode back to it |
| Unicode.CombineSurrogates | nexus/pvr.disptacharr-1.2.1/src/xtream_client.cpp:714-718 | a high/low surrogate pair combines to a supplementary code point in 0x10000..0x10FFFF |
| Unicode.SurrogatePairBijection | nexus/pvr.disptacharr-1.2.1/src/xtream_client.cpp:714-718 | surrogate pairs and supplementary code points correspond one to one, in both directions |
| Catalog.ReplyObjects | nexus/pvr.disptacharr-1.2.1/src/xtream_client.cpp:890-896 | the objects handed to the per-object step are the top-level spans of the reply, each a matched object |
| Catalog.CategoryFrom | nexus/pvr.disptacharr-1.2.1/src/xtream_client.cpp:892-896 | an object gives a category exactly when its `category_id` reads as an integer; a missing name is empty |
| Catalog.CollectMembers | nexus/pvr.disptacharr-1.2.1/src/xtream_client.cpp:890-899 | a record is collected exactly when some object gives it, and at most one per object |
| Catalog.ObjectsGiveCategories | nexus/pvr.disptacharr-1.2.1/src/xtream_client.cpp:890-899 | every object with a readable `category_id` contributes its category |
| Catalog.CategoriesFromObjects | nexus/pvr.disptacharr-1.2.1/src/xtream_client.cpp:890-899 | every collected category comes from one of the reply's objects |
| Catalog.ParseCategoriesReply | nexus/pvr.disptacharr-1.2.1/src/xtream_client.cpp:878-905 | a failed request, a non-array reply and an empty list are failures with the source's messages; otherwise the list is the categories of the reply's objects, in order |
| Catalog.StreamFrom | nexus/pvr.disptacharr-1.2.1/src/xtream_client.cpp:928-940 | an object gives a stream exactly when its `stream_id` reads as an integer, and the stream carries that id |
| Catalog.StreamsFromObjects | nexus/pvr.disptacharr-1.2.1/src/xtream_client.cpp:926-942 | every collected stream comes from one of the objects and carries its `stream_id` |
| Catalog.ObjectsGiveStreams | nexus/pvr.disptacharr-1.2.1/src/xtream_client.cpp:926-942 | every object with a readable `stream_id` contributes its stream |
| Catalog.ParseStreamsReply | nexus/pvr.disptacharr-1.2.1/src/xtream_client.cpp:907-945 | the same outcome rules as the category parse, for the stream objects |
| JsonSpans.ForEachTopLevelObjectSpan | nexus/pvr.disptacharr-1.2.1/src/xtream_client.cpp:409-474 | the scanner's loop reports exactly the spans `TopLevelSpans(json)`, in order; it returns true iff at least one span was reported, and a body whose first non-space byte is not `[` gives false and no span |
| JsonSpans.ScanByte | nexus/pvr.disptacharr-1.2.1/src/xtream_client.cpp:424-471 | one byte of the scan hands out the span it closes, if any, and the spans still to come after it are the rest of what remained |
| JsonSpans.SpansFromGood | nexus/pvr.disptacharr-1.2.1/src/xtream_client.cpp:424-471 | every span still to come is a balanced object after the current position, in order |
| JsonSpans.StepKeepsInvariant | nexus/pvr.disptacharr-1.2.1/src/xtream_client.cpp:424-471 | one byte of the scan keeps the lexer state (in string, escape, depth) and the open object's start in step with the bytes read so far |
| JsonSpans.TopLevelSpansAreObjects | nexus/pvr.disptacharr-1.2.1/src/xtream_client.cpp:453-469 | every reported span lies after the opening `[`, in increasing order and without overlap, and is one balanced object whose braces inside string literals (also after an escaped quote) do not count |
| JsonSpans.BracesInStringsIgnored | nexus/pvr.disptacharr-1.2.1/src/xtream_client.cpp:427-445 | a `}` and an escaped quote inside a string value do not close the object |
| JsonFields.ValueStart | nexus/pvr.disptacharr-1.2.1/src/xtream_client.cpp:476-481 | the value of `"key"` is read after the first colon at or after the key's first occurrence |
| JsonFields.ValueStartOfWrittenField | nexus/pvr.disptacharr-1.2.1/src/xtream_client.cpp:534-542 | when the first mention of `"key"` is the one a writer put down, the value is read right after its colon |
| JsonFields.WrittenFieldLayout | nexus/pvr.disptacharr-1.2.1/src/xtream_client.cpp:534-556 | the layout `"key":<space><value>` places the white space and then the value text right after the colon |
| JsonFields.ParseIntAt | nexus/pvr.disptacharr-1.2.1/src/xtream_client.cpp:483-532 | the parser reports a number exactly when `IntAt` finds one (white space, optional quote, optional minus, at least one digit), and returns that number |
| JsonFields.ParseSignedAt | nexus/pvr.disptacharr-1.2.1/src/xtream_client.cpp:494-511 | the sign-and-digits part reports a number exactly when `SignedAt` does, and returns it |
| JsonFields.AccumulateDigits | nexus/pvr.disptacharr-1.2.1/src/xtream_client.cpp:500-507 | the `v = v * 10 + digit` loop stops at the end of the digit run and accumulates its decimal value |
| JsonFields.IntAt | nexus/pvr.disptacharr-1.2.1/src/xtream_client.cpp:483-532 | what `ParseIntAt` reads is always an `int` |
| JsonFields.SignedAtReadsBack | nexus/pvr.disptacharr-1.2.1/src/xtream_client.cpp:494-511 | the number `std::to_string` wrote is read back, wrapped to 32 bits, when no digit follows it |
| JsonFields.IntAtReadsWrapped | nexus/pvr.disptacharr-1.2.1/src/xtream_client.cpp:483-532 | an integer literal, quoted or bare, after white space and before a non-digit is read back as its value wrapped to 32 bits |
| JsonFields.ExtractIntFieldReadsBack | nexus/pvr.disptacharr-1.2.1/src/xtream_client.cpp:534-543 | `ExtractIntField` reads back the 32-bit integer written for the first mention of the key, bare or quoted, with or without white space after the colon |
| JsonFields.BoolAtReadsBack | nexus/pvr.disptacharr-1.2.1/src/xtream_client.cpp:553-599 | each written form of a flag (`true`/`false`, `1`/`0`, `"1"`/`"0"`) is read back as the flag it stands for, whatever follows |
| JsonFields.ExtractBoolFieldReadsBack | nexus/pvr.disptacharr-1.2.1/src/xtream_client.cpp:545-603 | `ExtractBoolField` reads back the flag written for the first mention of the key, in any of the three forms |
| JsonFields.QuotedLiteralRejected | nexus/pvr.disptacharr-1.2.1/src/xtream_client.cpp:584-602 | a quoted `"true"` or `"false"` is not a flag |
| JsonFields.ExtractStringField | nexus/pvr.disptacharr-1.2.1/src/xtream_client.cpp:605-764 | the extractor reports a value exactly when `StringField` finds a quoted value with a closing quote, and returns its unescaped bytes |
| JsonFields.DecodeStringFrom | nexus/pvr.disptacharr-1.2.1/src/xtream_client.cpp:620-763 | the unescaping loop keeps "bytes so far + decoding of the rest" equal to the decoding from the opening quote, and ends with it |
| JsonFields.AppendEscape | nexus/pvr.disptacharr-1.2.1/src/xtream_client.cpp:664-746 | the `switch` after a backslash appends the escape's bytes and moves the cursor to the last byte it consumed |
| JsonFields.EscapeAt | nexus/pvr.disptacharr-1.2.1/src/xtream_client.cpp:664-746 | an escape consumes at least the byte after the backslash and stays inside the object |
| JsonFields.AppendUnicodeEscape | nexus/pvr.disptacharr-1.2.1/src/xtream_client.cpp:686-741 | the `\u` case appends the bytes of `UnicodeEscape` and moves to its last byte |
| JsonFields.ReadHex4 | nexus/pvr.disptacharr-1.2.1/src/xtream_client.cpp:689-697 | four hex digits are read as the code unit `Hex4At` |
| JsonFields.Hex4At | nexus/pvr.disptacharr-1.2.1/src/xtream_client.cpp:629-637 | four hex digits make a code unit below 0x10000 |
| JsonFields.Hex4TextReadsBack | nexus/pvr.disptacharr-1.2.1/src/xtream_client.cpp:689-697 | the four hex digits of a code unit are read back as that unit |
| JsonFields.UnicodeEscape | nexus/pvr.disptacharr-1.2.1/src/xtream_client.cpp:686-741 | a `\u` escape ends inside the object at or after the `u` |
| JsonFields.UnitEscapeValue | nexus/pvr.disptacharr-1.2.1/src/xtream_client.cpp:726-735 | a `\uXXXX` escape that does not start a pair decodes to its code unit, and a lone surrogate to U+FFFD |
| JsonFields.UnitEscapeDecodes | nexus/pvr.disptacharr-1.2.1/src/xtream_client.cpp:686-741 | a single `\uXXXX` escape inside a string decodes to the UTF-8 of its unit, or of U+FFFD for a surrogate |
| JsonFields.SurrogatePairDecodes | nexus/pvr.disptacharr-1.2.1/src/xtream_client.cpp:700-722 | a supplementary code point written as a pair of `\u` escapes decodes to its four-byte UTF-8 form (section 7 of RFC 8259) |
| JsonFields.UnterminatedStringRejected | nexus/pvr.disptacharr-1.2.1/src/xtream_client.cpp:623-763 | without a closing quote the field is absent |
| JsonFields.EscapedRunDecodes | nexus/pvr.disptacharr-1.2.1/src/xtream_client.cpp:623-761 | whatever bytes a writer escaped are read back unchanged, up to what follows them |
| JsonFields.StringRoundTrip | nexus/pvr.disptacharr-1.2.1/src/xtream_client.cpp:605-764 | a whole string literal written by the escaping writer reads back as the bytes written |
| Urls.EncodeByte | nexus/pvr.disptacharr-1.2.1/src/xtream_client.cpp:105-137 | an unreserved byte (section 2.3 of RFC 3986) is kept, any other becomes `%` and two upper-case hex digits spelling it |
| Urls.PercentEncoded | nexus/pvr.disptacharr-1.2.1/src/xtream_client.cpp:121-138 | the encoding contains only unreserved bytes and `%` |
| Urls.UrlEncode | nexus/pvr.disptacharr-1.2.1/src/xtream_client.cpp:121-138 | the push loop produces `PercentEncoded(s)` |
| Urls.PercentEncodedLength | nexus/pvr.disptacharr-1.2.1/src/xtream_client.cpp:121-138 | the output is the input length plus two per reserved byte |
| Urls.PercentRoundTrip | nexus/pvr.disptacharr-1.2.1/src/xtream_client.cpp:121-138 | percent-decoding the encoding gives the input back, so the encoding loses nothing |
| Urls.WithoutTrailingSlashes | nexus/pvr.disptacharr-1.2.1/src/xtream_client.cpp:143-144 | what is left is a prefix of the input that does not end in `/`, and only `/` bytes were removed |
| Urls.NormalizeServer | nexus/pvr.disptacharr-1.2.1/src/xtream_client.cpp:140-146 | the trim-then-pop loop returns the trimmed server without trailing slashes |
| Urls.BuildBaseUrlShape | nexus/pvr.disptacharr-1.2.1/src/xtream_client.cpp:148-172 | the base URL is empty exactly for a blank server; otherwise it is the server, behind `http://` unless it has a scheme, followed by `:port` for a positive port unless a scheme-qualified server already names a port |
| Urls.SecondPortAppended | nexus/pvr.disptacharr-1.2.1/src/xtream_client.cpp:168-171 | for every server without a scheme whose text holds a `:`, the URL built has that `:` and a second `:` followed by the decimal port, i.e. two ports |
| Urls.EffectiveUserAgent | nexus/pvr.disptacharr-1.2.1/src/xtream_client.cpp:192-199 | no agent unless spoofing is on; then the trimmed custom agent, or the default when that is blank |
| Urls.UserAgentSuffix | nexus/pvr.disptacharr-1.2.1/src/xtream_client.cpp:201-207 | the agent suffix leaves the URL intact and appends either nothing or a pipe, `User-Agent=` and the encoded agent |
| Urls.BuildLiveStreamUrlEmpty | nexus/pvr.disptacharr-1.2.1/src/xtream_client.cpp:986-999 | the live URL is empty exactly when the base URL is empty or the id is not positive |
| Urls.LiveUrlReadsBack | nexus/pvr.disptacharr-1.2.1/src/xtream_client.cpp:986-999 | the live URL is the base, `/live/`, two credential segments without `/` that decode back to the user name and password, then the same `/<id><ext>` tail and agent suffix as a catch-up URL |
| Urls.TruncDiv | nexus/pvr.disptacharr-1.2.1/src/xtream_client.cpp:1017 | the division truncates toward zero, as C++ does |
| Urls.BuildCatchupUrlEmpty | nexus/pvr.disptacharr-1.2.1/src/xtream_client.cpp:1001-1046 | the catch-up URL is empty exactly when one of the source's guards fails (no base, id, start, an end not after the start, a non-positive duration) |
| Urls.CatchupMinutesMeaning | nexus/pvr.disptacharr-1.2.1/src/xtream_client.cpp:1007-1019 | the duration is the whole minutes from the offset-adjusted start to the end |
| Urls.OffsetSecondsMeaning | nexus/pvr.disptacharr-1.2.1/src/xtream_client.cpp:1007-1014 | the `int` product of the offset is exact up to 596523 hours and wraps to a negative number one hour later |
| Urls.NegativeOffsetIsZero | nexus/pvr.disptacharr-1.2.1/src/xtream_client.cpp:1008-1013 | a negative start offset gives the same URL as no offset |
| Urls.CatchupUrlFillsTemplate | nexus/pvr.disptacharr-1.2.1/src/xtream_client.cpp:1001-1066 | the catch-up URL is the template URL with its `{Y}-{m}-{d}:{H}-{M}` placeholder replaced by the UTC start of the window |
| Urls.RedactParam | nexus/pvr.disptacharr-1.2.1/src/xtream_client.cpp:214-229 | the in-place loop produces `Redacted(url, key + "=", 0)`: the value after every occurrence becomes `***` |
| Urls.RedactNext | nexus/pvr.disptacharr-1.2.1/src/xtream_client.cpp:219-227 | one round of the loop leaves what `Redacted` still owes unchanged and moves closer to the end |
| Urls.RedactedStep | nexus/pvr.disptacharr-1.2.1/src/xtream_client.cpp:219-227 | one round replaces the next value by `***` and moves the cursor past it |
| Urls.RedactUrlCredentials | nexus/pvr.disptacharr-1.2.1/src/xtream_client.cpp:209-234 | the user name and then the password values are redacted |
| Urls.RedactSingle | nexus/pvr.disptacharr-1.2.1/src/xtream_client.cpp:214-229 | with one occurrence of the key, only the value after it, up to `&` or the end, becomes `***` |
| Urls.RedactUrlCredentialsHidesBoth | nexus/pvr.disptacharr-1.2.1/src/xtream_client.cpp:209-234 | a query naming the user and password once each is logged with both values hidden and everything else as it was |
| Urls.StatusLineClass | nexus/pvr.disptacharr-1.2.1/src/xtream_client.cpp:258-278 | a status line with a numeric code is accepted exactly when the code is 2xx (section 15 of RFC 9110) |
| Urls.NoReasonRefused | nexus/pvr.disptacharr-1.2.1/src/xtream_client.cpp:261-266 | a status line without a second space is refused |
| CivilTime.DaysBeforeMonthThirteen | nexus/pvr.disptacharr-1.2.1/src/xtream_client.cpp:1285-1293 | the months of a year add up to its length (365 or 366 days, by the Gregorian leap rule) |
| CivilTime.YearStartStep | nexus/pvr.disptacharr-1.2.1/src/xtream_client.cpp:1285-1293 | the closed-form day number of 1 January advances by the length of each year |
| CivilTime.YearStartMonotonic | nexus/pvr.disptacharr-1.2.1/src/xtream_client.cpp:1285-1293 | later years start later |
| CivilTime.YearOf | nexus/pvr.disptacharr-1.2.1/src/xtream_client.cpp:1027-1030 | the year found for a day number is the one whose span contains it |
| CivilTime.MonthFrom | nexus/pvr.disptacharr-1.2.1/src/xtream_client.cpp:1027-1030 | the month found for a day of the year is the one whose span contains it |
| CivilTime.CivilFromDays | nexus/pvr.disptacharr-1.2.1/src/xtream_client.cpp:1027-1030 | the date `gmtime_r` would give a day number is a valid date whose day number is that day |
| CivilTime.DayInYear | nexus/pvr.disptacharr-1.2.1/src/xtream_client.cpp:1285-1293 | a valid date lies in the month and the year it names |
| CivilTime.CivilRoundTrip | nexus/pvr.disptacharr-1.2.1/src/xtream_client.cpp:1285-1293 | valid dates have distinct day numbers and `CivilFromDays` inverts `DaysFromCivil` |
| CivilTime.KnownDays | nexus/pvr.disptacharr-1.2.1/src/xtream_client.cpp:1288-1292 | 1970-01-01 is day 0 and 2026-01-21 is day 20474 |
| CivilTime.TimegmInRange | nexus/pvr.disptacharr-1.2.1/src/xtream_client.cpp:1285-1293 | for in-range fields `timegm` is the day number times 86400 plus the seconds of the day |
| CivilTime.Gmtime | nexus/pvr.disptacharr-1.2.1/src/xtream_client.cpp:1027-1030 | `gmtime` yields a valid date and an in-range hour, minute and second |
| CivilTime.GmtimeDays | nexus/pvr.disptacharr-1.2.1/src/xtream_client.cpp:1027-1030 | the fields `gmtime` fills in add back up to the instant |
| CivilTime.GmtimeOfTimegm | nexus/pvr.disptacharr-1.2.1/src/xtream_client.cpp:1027-1030 | `gmtime` inverts `timegm` on in-range fields |
| CivilTime.YearAfterEpoch | nexus/pvr.disptacharr-1.2.1/src/xtream_client.cpp:1027-1030 | instants after the epoch fall in years from 1970 on |
| CivilTime.YearOfInt32Instant | nexus/pvr.disptacharr-1.2.1/src/xtream_client.cpp:1027-1030 | every instant from -2^31 on falls in a year from 1901 on, so the date fields are never negative |
| CivilTime.PadNat | nexus/pvr.disptacharr-1.2.1/src/xtream_client.cpp:1033-1035 | `%0Nd` writes at least N decimal digits |
| CivilTime.PadNatReadsBack | nexus/pvr.disptacharr-1.2.1/src/xtream_client.cpp:1033-1035 | zero padding keeps the value and, for a short enough number, has exactly N digits |
| CivilTime.StampTextReadsBack | nexus/pvr.disptacharr-1.2.1/src/xtream_client.cpp:1033-1035 | the `YYYY-MM-DD:HH-MM` text is a stamp whose fields read back as the date, hour and minute written |
| CivilTime.FormatCatchupStartReadsBack | nexus/pvr.disptacharr-1.2.1/src/xtream_client.cpp:1026-1035 | the catch-up start names the UTC minute containing the instant: a valid date, hour and minute that `timegm` maps to the instant rounded down to the minute |
| XmltvTime.ScanInt | nexus/pvr.disptacharr-1.2.1/src/xtream_client.cpp:1280-1283 | one `%Nd` conversion consumes at least one byte and stays in the text |
| XmltvTime.ScanFields | nexus/pvr.disptacharr-1.2.1/src/xtream_client.cpp:1280-1283 | the six date and time conversions read at most six values and stay in the text |
| XmltvTime.XmltvInstantOfStamp | nexus/pvr.disptacharr-1.2.1/src/xtream_client.cpp:1274-1298 | a guide time `YYYYMMDDHHMMSS [+-]HHMM` with in-range fields names the wall-clock instant minus the signed zone offset |
| XmltvTime.InstantOfReadStamp | nexus/pvr.disptacharr-1.2.1/src/xtream_client.cpp:1274-1298 | a stamp whose fields are read back gives the civil-time instant of those fields less the zone offset |
| XmltvTime.StampReads | nexus/pvr.disptacharr-1.2.1/src/xtream_client.cpp:1280-1283 | `sscanf` reads the six fields and the signed zone of a stamp attribute |
| XmltvTime.ScanIntOfDigits | nexus/pvr.disptacharr-1.2.1/src/xtream_client.cpp:1280-1283 | a field of exactly N digits converts to its number and the scan moves past it |
| XmltvTime.ZoneOfStamp | nexus/pvr.disptacharr-1.2.1/src/xtream_client.cpp:1294-1296 | the zone offset of a stamp is its signed `HHMM` in seconds |
| XmltvTime.ZoneExample | nexus/pvr.disptacharr-1.2.1/src/xtream_client.cpp:1288-1292 | `20260121200000 +0100` is 19:00 UTC on 21 January 2026 |
| XmltvTime.UnreadableAttrIsZero | nexus/pvr.disptacharr-1.2.1/src/xtream_client.cpp:1274-1284 | an attribute without six convertible fields leaves the time at 0 |
| EpgNames.LastSeparator | nexus/pvr.disptacharr-1.2.1/src/xtream_client.cpp:97-98 | `rfind` finds the last space-pipe-space separator, and none only when there is none |
| EpgNames.NormalizeChannelNameForEpg | nexus/pvr.disptacharr-1.2.1/src/xtream_client.cpp:54-103 | the trim, entity decoding, collapse, trim and prefix cut produce `NormalizedName(name)` |
| EpgNames.CutAfterSeparator | nexus/pvr.disptacharr-1.2.1/src/xtream_client.cpp:96-100 | the last step keeps the trimmed text after the last separator when that text is not empty, and otherwise the whole text |
| EpgNames.NormalizedNameShape | nexus/pvr.disptacharr-1.2.1/src/xtream_client.cpp:54-103 | the normalised name is trimmed, has its white space collapsed, and holds no space-pipe-space separator |
| EpgNames.CutPrefixCases | nexus/pvr.disptacharr-1.2.1/src/xtream_client.cpp:96-100 | with a separator followed by text, the result is the trimmed text after the last separator; otherwise the text is kept |
| EpgNames.TailShape | nexus/pvr.disptacharr-1.2.1/src/xtream_client.cpp:96-100 | the trimmed text after the last space-pipe-space separator keeps the single-space form and holds no separator |
| EpgNames.PlainNameUnchanged | nexus/pvr.disptacharr-1.2.1/src/xtream_client.cpp:54-103 | a plain name (trimmed, collapsed, no entity, no separator) is its own normalisation |
| EpgNames.StripsCategoryPrefix | nexus/pvr.disptacharr-1.2.1/src/xtream_client.cpp:96-100 | a category prefix before a plain name is removed, whatever the prefix holds; only the last separator counts |
| EpgNames.DecodeUnchanged | nexus/pvr.disptacharr-1.2.1/src/xtream_client.cpp:62-76 | text without `&` has no entity, so decoding leaves it unchanged |
| EpgNames.CollapseUnchanged | nexus/pvr.disptacharr-1.2.1/src/xtream_client.cpp:78-92 | collapsing already collapsed text changes nothing |
| Xmltv.Index | nexus/pvr.disptacharr-1.2.1/src/xtream_client.cpp:1134-1146 | every key of an index lists at least one stream id |
| Xmltv.IndexMeaning | nexus/pvr.disptacharr-1.2.1/src/xtream_client.cpp:1134-1146 | an index lists an id under a key exactly when a stream with that positive id has that key |
| Xmltv.IndexLast | nexus/pvr.disptacharr-1.2.1/src/xtream_client.cpp:1138-1144 | a stream's id is appended at the end of its key's list |
| Xmltv.FiledUnderLast | nexus/pvr.disptacharr-1.2.1/src/xtream_client.cpp:1138-1144 | an id is filed under a key after one more stream exactly when it was before or the new stream files it there |
| Xmltv.KnownIdsMeaning | nexus/pvr.disptacharr-1.2.1/src/xtream_client.cpp:1136-1138 | `streamIdToName` knows an id exactly when some stream has that positive id |
| Xmltv.BuildIndices | nexus/pvr.disptacharr-1.2.1/src/xtream_client.cpp:1130-1146 | the index-building loop produces `IndicesOf(streams)` |
| Xmltv.AddStream | nexus/pvr.disptacharr-1.2.1/src/xtream_client.cpp:1136-1145 | one iteration files the stream in the three indices |
| Xmltv.FileByName | nexus/pvr.disptacharr-1.2.1/src/xtream_client.cpp:1139-1141 | a stream is filed under its lower-cased normalised name when that is not empty |
| Xmltv.FileByEpgId | nexus/pvr.disptacharr-1.2.1/src/xtream_client.cpp:1143-1144 | a stream is filed under its `epg_channel_id` when that is not empty |
| Xmltv.StrtolWhole | nexus/pvr.disptacharr-1.2.1/src/xtream_client.cpp:1199-1201 | `strtol` over the whole id yields a value within the range of `long` |
| Xmltv.StrtolOfIdString | nexus/pvr.disptacharr-1.2.1/src/xtream_client.cpp:1199-1201 | `strtol` reads back the decimal text of a positive id |
| Xmltv.IdStrings | nexus/pvr.disptacharr-1.2.1/src/xtream_client.cpp:1193-1194 | the mapped ids are the decimal texts of the stream ids, in order |
| Xmltv.Resolve | nexus/pvr.disptacharr-1.2.1/src/xtream_client.cpp:1185-1234 | a channel is unmatched exactly when it resolves to no id |
| Xmltv.ResolveMeaning | nexus/pvr.disptacharr-1.2.1/src/xtream_client.cpp:1185-1225 | each channel resolves by exactly one rule, the first that applies in the order epg id, numeric id, normalised name, or is unmatched |
| Xmltv.ResolvedIds | nexus/pvr.disptacharr-1.2.1/src/xtream_client.cpp:1189-1222 | the resolved ids are the decimal texts of exactly the streams the winning rule selects |
| Xmltv.NumericIdResolves | nexus/pvr.disptacharr-1.2.1/src/xtream_client.cpp:1199-1210 | a channel whose id is the decimal text of a known stream id resolves to it when no `epg_channel_id` claims it first |
| Xmltv.FillTargetsMeaning | nexus/pvr.disptacharr-1.2.1/src/xtream_client.cpp:1236-1246 | each mapped id gets a channel entry; an existing entry keeps its non-empty fields and its programmes, and nothing else changes |
| Xmltv.ChannelStepMaps | nexus/pvr.disptacharr-1.2.1/src/xtream_client.cpp:1227-1236 | after a channel's step its XMLTV id maps to its resolved ids or, when unmatched, to itself with a fresh channel under its own id |
| Xmltv.FillKeepsValid | nexus/pvr.disptacharr-1.2.1/src/xtream_client.cpp:1236-1246 | filling keeps every mapped id backed by a channel filed under that id |
| Xmltv.ChannelPassValid | nexus/pvr.disptacharr-1.2.1/src/xtream_client.cpp:1157-1247 | after the channel pass every mapped XMLTV id lists channels that exist, each filed under its own id |
| Xmltv.StoreMeaning | nexus/pvr.disptacharr-1.2.1/src/xtream_client.cpp:1355-1363 | storing files the entry at its start time under every listed channel, replacing an entry with the same start, and changes nothing else |
| Xmltv.InvalidTimesDropped | nexus/pvr.disptacharr-1.2.1/src/xtream_client.cpp:1322-1324 | a programme whose times do not both read, or whose end is not after its start, changes nothing |
| Xmltv.ProgrammeLands | nexus/pvr.disptacharr-1.2.1/src/xtream_client.cpp:1256-1364 | a programme with valid times for a mapped id lands at its start time in every channel the id maps to, and every other channel is unchanged |
| Xmltv.ProgrammePassValid | nexus/pvr.disptacharr-1.2.1/src/xtream_client.cpp:1256-1364 | the programme pass keeps every stored entry at its start time with valid times |
| Xmltv.PublishedWellFormed | nexus/pvr.disptacharr-1.2.1/src/xtream_client.cpp:1366-1371 | every published channel is filed under its own id and has at least one entry, each at its start time with a non-zero start and a later end |
| Xmltv.ParseXmltv | nexus/pvr.disptacharr-1.2.1/src/xtream_client.cpp:1098-1377 | the result is the channels with entries after both passes, and `true` exactly when there is one |
| Xmltv.MapChannels | nexus/pvr.disptacharr-1.2.1/src/xtream_client.cpp:1157-1247 | the channel loop produces `ChannelPass(channels, ix)` |
| Xmltv.AddProgrammes | nexus/pvr.disptacharr-1.2.1/src/xtream_client.cpp:1256-1364 | the programme loop produces `ProgrammePass` |
| Xmltv.FillMapped | nexus/pvr.disptacharr-1.2.1/src/xtream_client.cpp:1237-1246 | the inner channel loop produces `FillTargets` |
| Xmltv.StoreEntry | nexus/pvr.disptacharr-1.2.1/src/xtream_client.cpp:1356-1363 | the inner programme loop produces `Store` |
| Xmltv.UnmatchedChannelGetsProgrammes | nexus/pvr.disptacharr-1.2.1/src/xtream_client.cpp:1227-1233 | an unmatched channel is kept under its own XMLTV id and still collects its programmes |
| SettingsXml.AfterOpeningTag | nexus/pvr.disptacharr-1.2.1/src/xtream_client.cpp:301-309 | when found, the cursor is just past a `>` that follows the first `<setting id="<id>"` |
| SettingsXml.ExtractSettingValueAsWritten | nexus/pvr.disptacharr-1.2.1/src/xtream_client.cpp:298-321 | as written: a value is read only past an opening tag of the setting and only where some `</setting>` follows it, even for a self-closing element |
| SettingsXml.ExtractSettingValue | nexus/pvr.disptacharr-1.2.1/src/xtream_client.cpp:298-321 | corrected reader (the self-closing test looks at the byte before the `>`): a value is found only past an opening tag of the setting |
| SettingsXml.ExtractSettingValueReadsBack | nexus/pvr.disptacharr-1.2.1/src/xtream_client.cpp:298-321 | the first element for the id, `<setting id="id" attrs>value</setting>`, reads back as the trimmed value |
| SettingsXml.OpenTagValue | nexus/pvr.disptacharr-1.2.1/src/xtream_client.cpp:314-320 | past an opening tag not ending in `/>`, the value is the trimmed text up to the next `</setting>` |
| SettingsXml.ClosedTagValue | nexus/pvr.disptacharr-1.2.1/src/xtream_client.cpp:311-313 | past an opening tag ending in `/>`, the value is empty |
| SettingsXml.ExtractSettingValueReadsEmpty | nexus/pvr.disptacharr-1.2.1/src/xtream_client.cpp:311-313 | a self-closing element reads back as the empty value |
| SettingsXml.SelfClosingTestNeverPasses | nexus/pvr.disptacharr-1.2.1/src/xtream_client.cpp:309-313 | as written, the self-closing test never fires: the byte before the cursor is always the `>` just found |
| SettingsXml.SelfClosingReadsNextElement | nexus/pvr.disptacharr-1.2.1/src/xtream_client.cpp:309-320 | as written, a self-closing element followed by another element reads as the next element's opening tag and value, a non-empty string |
| SettingsXml.ExtractSettingInt | nexus/pvr.disptacharr-1.2.1/src/xtream_client.cpp:323-339 | an integer setting, when read, fits in 32 bits |
| SettingsXml.ExtractSettingIntReadsBack | nexus/pvr.disptacharr-1.2.1/src/xtream_client.cpp:323-339 | the decimal text of any 32-bit integer in the setting's element reads back as that integer |
| SettingsXml.NumberValueReadsBack | nexus/pvr.disptacharr-1.2.1/src/xtream_client.cpp:298-321 | a value of digits and signs is read back unchanged |
| SettingsXml.ExtractSettingBoolReadsBack | nexus/pvr.disptacharr-1.2.1/src/xtream_client.cpp:341-360 | `true` and `false` as written by Kodi read back as the boolean |
| SettingsXml.BoolWordTrueSpellings | nexus/pvr.disptacharr-1.2.1/src/xtream_client.cpp:349-354 | for every text: it reads as true exactly when, trimmed and lower-cased, it is `true`, `1` or `yes` |
| SettingsXml.BoolWordFalseSpellings | nexus/pvr.disptacharr-1.2.1/src/xtream_client.cpp:355-359 | for every text: it reads as false exactly when, trimmed and lower-cased, it is `false`, `0` or `no`, and as no boolean exactly when it is none of the six words |
| CacheCodec.LeRoundTrip | omega/pvr.disptacharr-master/src/addon.cpp:117-167 | the little-endian value of the `n` bytes written for a value below `256^n` is that value |
| CacheCodec.LeBytesSnoc | omega/pvr.disptacharr-master/src/addon.cpp:117-123 | byte `i` written is `(v >> 8i) & 0xFF` |
| CacheCodec.LeValueSnoc | omega/pvr.disptacharr-master/src/addon.cpp:136-146 | reading byte `i` adds it shifted by `8i` |
| CacheCodec.TakeU32 | omega/pvr.disptacharr-master/src/addon.cpp:136-146 | a `uint32_t` is read exactly when four bytes remain, and the cursor moves past them |
| CacheCodec.TakeI32 | omega/pvr.disptacharr-master/src/addon.cpp:148-155 | an `int32_t` is read exactly when four bytes remain |
| CacheCodec.TakeU64 | omega/pvr.disptacharr-master/src/addon.cpp:157-167 | a `uint64_t` is read exactly when eight bytes remain |
| CacheCodec.TakeBytes | omega/pvr.disptacharr-master/src/addon.cpp:1463-1466 | `len` raw bytes are read exactly when that many remain, and they and the rest make up the input |
| CacheCodec.ReadU32 | omega/pvr.disptacharr-master/src/addon.cpp:136-146 | on success the value read is the `TakeU32` of the bytes at the cursor and the cursor moves by 4; on failure it stays |
| CacheCodec.ReadI32 | omega/pvr.disptacharr-master/src/addon.cpp:148-155 | the same for `int32_t` |
| CacheCodec.ReadU64 | omega/pvr.disptacharr-master/src/addon.cpp:157-167 | the same for eight bytes OR-ed in at shifts 0 to 56 |
| CacheCodec.AppendU32 | omega/pvr.disptacharr-master/src/addon.cpp:117-123 | four bytes are appended, least significant first |
| CacheCodec.AppendI32 | omega/pvr.disptacharr-master/src/addon.cpp:125-128 | the `int32_t` is appended as its `uint32_t` cast |
| CacheCodec.AppendU64 | omega/pvr.disptacharr-master/src/addon.cpp:130-134 | eight bytes are appended, least significant first |
| CacheCodec.TakeU32Of | omega/pvr.disptacharr-master/src/addon.cpp:117-146 | reading back four written bytes gives the value and the bytes after them |
| CacheCodec.TakeI32Of | omega/pvr.disptacharr-master/src/addon.cpp:125-155 | a written `int32_t` reads back, negative values included |
| CacheCodec.TakeU64Of | omega/pvr.disptacharr-master/src/addon.cpp:130-167 | a written `uint64_t` reads back |
| CacheCodec.CacheCategories | omega/pvr.disptacharr-master/src/addon.cpp:1593-1600 | the categories written are those with a positive id and a name, in order |
| CacheCodec.CategoriesRoundTrip | omega/pvr.disptacharr-master/src/addon.cpp:1480-1490 | the written category records read back, in order, with the bytes after them |
| CacheCodec.ChannelsRoundTrip | omega/pvr.disptacharr-master/src/addon.cpp:1503-1513 | the written channel records read back, in order, with the bytes after them |
| CacheCodec.HeaderRoundTrip | omega/pvr.disptacharr-master/src/addon.cpp:1457-1472 | a written header is accepted under its own signature and yields its timestamp |
| CacheCodec.BodyRoundTrip | omega/pvr.disptacharr-master/src/addon.cpp:1474-1513 | the written counts and records read back |
| CacheCodec.CacheRoundTrip | omega/pvr.disptacharr-master/src/addon.cpp:1447-1513 | decoding what `SaveCache` wrote, under the same signature, gives back its timestamp, its usable categories and all its channel records, whatever bytes follow |
| CacheCodec.AcceptedHeader | omega/pvr.disptacharr-master/src/addon.cpp:1457-1468 | a blob is accepted only if it starts with the magic, then a length equal to the expected signature's, then that signature |
| CacheCodec.WrongSignatureRejected | omega/pvr.disptacharr-master/src/addon.cpp:1462-1468 | a header written for one signature is refused under another |
| CacheCodec.WrongSignatureCacheRejected | omega/pvr.disptacharr-master/src/addon.cpp:1462-1468 | a whole cache written for one signature is never loaded for another |
| CacheCodec.TruncatedRejected | omega/pvr.disptacharr-master/src/addon.cpp:1459-1511 | a saved blob cut short anywhere before its end is refused |
| CacheCodec.ExactPrefixRejected | omega/pvr.disptacharr-master/src/addon.cpp:1459-1511 | any blob whose body is read to its last byte is refused once cut short |
| CacheCodec.ReadCategory | omega/pvr.disptacharr-master/src/addon.cpp:1482-1487 | a category record is read exactly when `TakeCategory` reads one, and the cursor moves past it |
| CacheCodec.TakeCategory | omega/pvr.disptacharr-master/src/addon.cpp:1482-1487 | reading a category record consumes at least one byte |
| CacheCodec.TakeCategories | omega/pvr.disptacharr-master/src/addon.cpp:1480-1490 | reading n category records gives exactly n |
| CacheCodec.CategoryRoundTrip | omega/pvr.disptacharr-master/src/addon.cpp:1482-1487 | a written category record reads back as itself, with the bytes after it |
| CacheCodec.ReadCategories | omega/pvr.disptacharr-master/src/addon.cpp:1474-1490 | the category loop fails exactly when some record runs past the end, and otherwise gives the name table of the records read |
| CacheCodec.ReadChannel | omega/pvr.disptacharr-master/src/addon.cpp:1505-1513 | a channel record is read exactly when `TakeChannel` reads one |
| CacheCodec.TakeChannel | omega/pvr.disptacharr-master/src/addon.cpp:1505-1513 | reading a channel record consumes at least one byte |
| CacheCodec.TakeChannels | omega/pvr.disptacharr-master/src/addon.cpp:1503-1525 | reading n channel records gives exactly n |
| CacheCodec.ChannelRoundTrip | omega/pvr.disptacharr-master/src/addon.cpp:1505-1513 | a written channel record reads back as itself, with the bytes after it |
| CacheCodec.KeptRecords | omega/pvr.disptacharr-master/src/addon.cpp:1514-1515 | only records with a non-zero uid and a name are kept, in order |
| CacheCodec.ReadChannels | omega/pvr.disptacharr-master/src/addon.cpp:1492-1525 | the channel loop fails exactly when some record runs past the end; otherwise it gives a channel, a uid entry and a category id for every record with a uid and a name |
| CacheCodec.KeepChannel | omega/pvr.disptacharr-master/src/addon.cpp:1514-1524 | one record's step extends the channels, the remembered category ids and the uid map as the specification functions of the kept records say |
| CacheCodec.BuildGroupMembers | omega/pvr.disptacharr-master/src/addon.cpp:1527-1541 | the group-member loop gives `GroupMembersOf` the loaded channels |
| CacheCodec.OrderGroupNames | omega/pvr.disptacharr-master/src/addon.cpp:1543-1557 | the group names are the category names sorted by id, keeping those whose group has members |
| CacheCodec.LoadCache | omega/pvr.disptacharr-master/src/addon.cpp:1447-1557 | the load gives `LoadedSnapshot` of the blob: nothing for a bad header, a wrong signature or a truncated record |
| CacheCodec.LoadBody | omega/pvr.disptacharr-master/src/addon.cpp:1474-1525 | the body read succeeds exactly when `DecodeBody` does and then gives its contents |
| CacheCodec.SaveCache | omega/pvr.disptacharr-master/src/addon.cpp:1576-1620 | the blob written is `EncodeCache` of the signature, the clock reading, the categories and the channels |
| CacheCodec.AppendHeader | omega/pvr.disptacharr-master/src/addon.cpp:1586-1591 | magic, signature length, signature and timestamp are appended in that order |
| CacheCodec.AppendCategories | omega/pvr.disptacharr-master/src/addon.cpp:1601-1607 | the category count and records are appended |
| CacheCodec.AppendChannels | omega/pvr.disptacharr-master/src/addon.cpp:1609-1617 | the channel count and records are appended |
| CacheCodec.SaveThenLoad | omega/pvr.disptacharr-master/src/addon.cpp:1447-1620 | loading a saved blob under its signature gives exactly the snapshot of its usable categories and channel records |
| Patterns.SplitPatterns | omega/pvr.disptacharr-master/src/addon.cpp:244-264 | the loop returns `PatternsOf(raw)`: the lower-cased, trimmed fields between separators that are not blank |
| Patterns.FieldsPartition | omega/pvr.disptacharr-master/src/addon.cpp:248-259 | the fields are one more than the separators, and laid end to end they are the setting without its separators |
| Patterns.FieldsHaveNoSeparator | omega/pvr.disptacharr-master/src/addon.cpp:250-258 | no field holds a `,`, `\n` or `\r` |
| Patterns.KeptFromField | omega/pvr.disptacharr-master/src/addon.cpp:252-262 | every pattern kept is the normalised form of a field that is not blank |
| Patterns.SplitPatternsComplete | omega/pvr.disptacharr-master/src/addon.cpp:252-262 | every field that is not blank is kept as a pattern |
| Patterns.SplitPatternsShape | omega/pvr.disptacharr-master/src/addon.cpp:244-264 | every pattern is non-empty, trimmed, lower-case and free of separators |
| Patterns.LooksLikeChannelSeparator | omega/pvr.disptacharr-master/src/addon.cpp:266-281 | the loop answers whether the name holds a run of four `#` |
| Patterns.WildcardMatchLower | omega/pvr.disptacharr-master/src/addon.cpp:284-315 | with the `*` test made first, the matcher decides exactly the glob relation `Glob` |
| Patterns.MatchStep | omega/pvr.disptacharr-master/src/addon.cpp:290-311 | one pass of the loop keeps the scan invariant and what remains possible, or fails only when no match remains possible |
| Patterns.TrailingStars | omega/pvr.disptacharr-master/src/addon.cpp:312-314 | after the text is used up, the pattern matches exactly when the rest of it is all `*` |
| Patterns.GlobStarSplit | omega/pvr.disptacharr-master/src/addon.cpp:298-309 | a pattern starting with `*` matches only when its rest matches some suffix of the text |
| Patterns.GlobLiteral | omega/pvr.disptacharr-master/src/addon.cpp:292-296 | a star-free prefix of a pattern must spell the front of the text |
| Patterns.StarMatchesAll | omega/pvr.disptacharr-master/src/addon.cpp:283 | the pattern `*` matches every text |
| Patterns.WildcardScanAgrees | omega/pvr.disptacharr-master/src/addon.cpp:290-311 | on texts without `*`, testing the literal first or the `*` first makes no difference |
| Patterns.AsWrittenMatchesGlob | omega/pvr.disptacharr-master/src/addon.cpp:284-315 | as written, the matcher decides `Glob` for every text without `*` |
| Patterns.WildcardMatchAsWritten | omega/pvr.disptacharr-master/src/addon.cpp:284-315 | as written: an empty pattern matches only the empty text, and the empty text only a pattern of stars |
| Patterns.AsWrittenStarCounterexample | omega/pvr.disptacharr-master/src/addon.cpp:292-310 | as written, the pattern `*` does not match the text `*x`, though the glob does |
| Patterns.PatternMatchesLower | omega/pvr.disptacharr-master/src/addon.cpp:317-325 | corrected (a pattern with `*` is decided by `Glob`): only a non-empty pattern matches |
| Patterns.MatchPattern | omega/pvr.disptacharr-master/src/addon.cpp:317-325 | corrected: the dispatch gives `PatternMatchesLower`, a pattern with `*` going to the corrected wildcard matcher and any other to a substring search |
| Patterns.SubstringIsGlob | omega/pvr.disptacharr-master/src/addon.cpp:323-324 | a pattern without `*` matches exactly where the glob `*pattern*` does |
| Patterns.ShouldFilterOut | omega/pvr.disptacharr-master/src/addon.cpp:327-340 | corrected matcher: the loop gives `FilteredOut`, some non-empty pattern matching the lower-cased name |
| Patterns.ShouldFilterOutMeaning | omega/pvr.disptacharr-master/src/addon.cpp:327-340 | a name is filtered exactly when one of the patterns matches its lower-case form |
| Patterns.AnyMatchesMeaning | omega/pvr.disptacharr-master/src/addon.cpp:332-338 | the pattern-by-pattern test holds exactly when some pattern matches |
| ChannelBuild.StripFrom | omega/pvr.disptacharr-master/src/addon.cpp:1848-1877 | the text left after the escape-stripping scan is never longer than what it scanned |
| ChannelBuild.StripUnicodeEscapes | omega/pvr.disptacharr-master/src/addon.cpp:1848-1877 | the loop gives `StripEscapes`: every `\uXXXX` and `uXXXX` with four hex digits removed, left to right |
| ChannelBuild.StripWithoutU | omega/pvr.disptacharr-master/src/addon.cpp:1851-1874 | text holding no `u` passes the stripper unchanged |
| ChannelBuild.EscapeRemoved | omega/pvr.disptacharr-master/src/addon.cpp:1851-1874 | a complete escape is dropped and the scan resumes just after it |
| ChannelBuild.SanitizeChannelName | omega/pvr.disptacharr-master/src/addon.cpp:1801-1897 | the lambda gives `Sanitized`: trimmed, entities decoded, escapes stripped, white space collapsed, trimmed again |
| ChannelBuild.SanitizedShape | omega/pvr.disptacharr-master/src/addon.cpp:1879-1896 | a published name has no white space at either end and no two white-space characters in a row |
| ChannelBuild.CollapsedTrimmed | omega/pvr.disptacharr-master/src/addon.cpp:1879-1896 | trimming a collapsed text keeps it collapsed |
| ChannelBuild.SanitizedClean | omega/pvr.disptacharr-master/src/addon.cpp:1801-1897 | a name that is already trimmed and collapsed, with no `&` and no `u`, is published unchanged |
| ChannelBuild.KeepCatIds | omega/pvr.disptacharr-master/src/addon.cpp:1726-1742 | corrected matcher: the ids kept are no more than the categories |
| ChannelBuild.KeepCatIdsMeaning | omega/pvr.disptacharr-master/src/addon.cpp:1726-1742 | an id is kept exactly when some category with a positive id and a name passes the include or exclude test |
| ChannelBuild.PlanFetch | omega/pvr.disptacharr-master/src/addon.cpp:1713-1747 | corrected matcher: a per-category fetch happens only with an active category filter that does not want uncategorised streams, uses exactly the kept ids, and only when they are at most 20 or at most a quarter of the categories |
| ChannelBuild.PlanFetchChoice | omega/pvr.disptacharr-master/src/addon.cpp:1744-1747 | with such a filter, everything is fetched in one call exactly when more than 20 categories are kept and more than a quarter of them |
| ChannelBuild.FetchStreamsCorrected | omega/pvr.disptacharr-master/src/addon.cpp:1756-1784 | a failed fallback call ends the cycle; every other outcome is the as-written one |
| ChannelBuild.FetchFrom | omega/pvr.disptacharr-master/src/addon.cpp:1757-1779 | as written: the per-category loop never fails outright; after a failed call the fallback reply replaces every per-category stream when it succeeds, and the cycle goes on to build exactly when the fallback also fails |
| ChannelBuild.FetchStreams | omega/pvr.disptacharr-master/src/addon.cpp:1748-1780 | as written: the step fails outright exactly when the single call for everything fails, and goes on to build after a failure exactly when a per-category call and the fallback both fail |
| ChannelBuild.FetchFromAllOk | omega/pvr.disptacharr-master/src/addon.cpp:1759-1780 | when every per-category call succeeds, the streams are the replies laid end to end in category order |
| ChannelBuild.FailedFallbackBuilds | omega/pvr.disptacharr-master/src/addon.cpp:1766-1784 | as written, a failed per-category call followed by a failed fallback call still goes on to build, with no streams; the corrected step fails |
| ChannelBuild.Kept | omega/pvr.disptacharr-master/src/addon.cpp:1916-1946 | corrected matcher: every kept stream passes the filters, and no more are kept than fetched |
| ChannelBuild.AdmittedIsKept | omega/pvr.disptacharr-master/src/addon.cpp:1916-1946 | every stream that passes the filters is kept |
| ChannelBuild.KeptIsFetched | omega/pvr.disptacharr-master/src/addon.cpp:1916-1946 | every kept stream is one of the fetched streams |
| ChannelBuild.CleanNames | omega/pvr.disptacharr-master/src/addon.cpp:1951 | one cleaned name per kept stream, in order |
| ChannelBuild.BuiltChannels | omega/pvr.disptacharr-master/src/addon.cpp:1948-1962 | one channel per kept stream, in order, numbered by its 1-based position unless the provider's number is used |
| ChannelBuild.BuiltCache | omega/pvr.disptacharr-master/src/addon.cpp:1965-1970 | one cache record per kept stream, in order |
| ChannelBuild.UidEntries | omega/pvr.disptacharr-master/src/addon.cpp:1963 | one uid entry per kept stream, the id folded to 32 bits next to the id |
| ChannelBuild.KeptSnoc | omega/pvr.disptacharr-master/src/addon.cpp:1916-1983 | one more fetched stream adds itself to the kept streams exactly when it passes the filters |
| ChannelBuild.BuiltSnoc | omega/pvr.disptacharr-master/src/addon.cpp:1948-1980 | a kept stream adds one channel, one cache record, one category id and one uid entry at the end |
| ChannelBuild.BuildChannels | omega/pvr.disptacharr-master/src/addon.cpp:1916-1983 | corrected matcher: the loop publishes `BuiltChannels` of the kept streams, the first-wins uid map of their uids, the group members per category name and the cache records |
| ChannelBuild.CleanNamesSnoc | omega/pvr.disptacharr-master/src/addon.cpp:1951 | the cleaned names grow by the new stream's cleaned name |
| ChannelBuild.UidMapSnoc | omega/pvr.disptacharr-master/src/addon.cpp:1963 | `emplace` leaves a uid already present unchanged and adds a new one |
| ChannelBuild.GroupMembersSnoc | omega/pvr.disptacharr-master/src/addon.cpp:1972-1980 | a channel whose category has a name joins that name's group at the end; otherwise the groups are unchanged |
| ChannelBuild.CategoryGroupNames | omega/pvr.disptacharr-master/src/addon.cpp:1985-1995 | the loop lists, in category order, the name of every named category whose group has members |
| ChannelBuild.BuildNameTable | omega/pvr.disptacharr-master/src/addon.cpp:1788-1797 | the loop gives `NameTable`: the first name of each category with a positive id and a name |
| ChannelBuild.Build | omega/pvr.disptacharr-master/src/addon.cpp:1788-2015 | corrected matcher: the build step gives `BuildFrom`: the snapshot and cache records built from the fetched streams |
| ChannelBuild.PublishedChannel | omega/pvr.disptacharr-master/src/addon.cpp:1948-1962 | every published channel comes from an admitted fetched stream, in fetch order, with its id as uid, its cleaned name, and its position or its provider number |
| ChannelBuild.AdmittedIsPublished | omega/pvr.disptacharr-master/src/addon.cpp:1916-1962 | every admitted stream has a published channel with its uid |
| ChannelBuild.UidEntriesMatch | omega/pvr.disptacharr-master/src/addon.cpp:1949-1963 | the uid entries line up with the channels' uids |
| ChannelBuild.PublishedUids | omega/pvr.disptacharr-master/src/addon.cpp:1963-2006 | the uid map holds exactly the uids of the published channels |
| ChannelBuild.UidsOf | omega/pvr.disptacharr-master/src/addon.cpp:1963 | a uid is in the map exactly when some channel carries it |
| ChannelBuild.PublishedUidTarget | omega/pvr.disptacharr-master/src/addon.cpp:1963 | a uid maps to the stream id of the first published channel carrying it |
| Snapshots.NameOf | omega/pvr.disptacharr-master/src/addon.cpp:1533-1535 | the lookup finds a name exactly when the table has an entry for the id, and the name found is that entry's |
| Snapshots.NameTable | omega/pvr.disptacharr-master/src/addon.cpp:1788-1797 | the table holds only categories with a positive id and a name, with no id twice |
| Snapshots.NameTableComplete | omega/pvr.disptacharr-master/src/addon.cpp:1790-1797 | every usable category's id is in the table |
| Snapshots.NameTableSound | omega/pvr.disptacharr-master/src/addon.cpp:1790-1797 | the name found for an id is the name of the first usable category with that id: `emplace` keeps the first |
| Snapshots.NameOfPrefix | omega/pvr.disptacharr-master/src/addon.cpp:1488-1489 | adding an entry leaves every earlier lookup unchanged and answers a new id with the new name |
| Snapshots.InsertById | omega/pvr.disptacharr-master/src/addon.cpp:1544-1547 | inserting adds exactly the one entry |
| Snapshots.InsertKeepsSorted | omega/pvr.disptacharr-master/src/addon.cpp:1547 | inserting into a table sorted by id keeps it sorted |
| Snapshots.HeadBelowInserted | omega/pvr.disptacharr-master/src/addon.cpp:1547 | the head of a sorted table is at most every entry of its tail with the new entry inserted |
| Snapshots.ConsSorted | omega/pvr.disptacharr-master/src/addon.cpp:1547 | an entry at most every entry of a sorted table keeps it sorted when put in front |
| Snapshots.SortByIdSpec | omega/pvr.disptacharr-master/src/addon.cpp:1544-1547 | the cache load's sort orders the categories by id and neither loses nor adds any |
| Snapshots.GroupMembersOf | omega/pvr.disptacharr-master/src/addon.cpp:1526-1541 | no group in the map is empty |
| Snapshots.GroupMembersMeaning | omega/pvr.disptacharr-master/src/addon.cpp:1526-1541 | a group holds exactly the channels whose category id the table maps to its name, in channel-list order |
| Snapshots.Members | omega/pvr.disptacharr-master/src/addon.cpp:1526-1541 | a group has no more members than there are channels |
| Snapshots.MembersAreChannels | omega/pvr.disptacharr-master/src/addon.cpp:1526-1541 | every member of a group comes from a channel whose category maps to that group |
| Snapshots.ChannelsAreMembers | omega/pvr.disptacharr-master/src/addon.cpp:1526-1541 | every channel whose category maps to a group is a member of it |
| Snapshots.SortedGroupNames | omega/pvr.disptacharr-master/src/addon.cpp:1549-1556 | the cache load lists only names whose groups have members, at most one per category |
| Snapshots.SortedGroupNamesComplete | omega/pvr.disptacharr-master/src/addon.cpp:1549-1556 | every category whose group has members is listed |
| Snapshots.SortedGroupNamesOrder | omega/pvr.disptacharr-master/src/addon.cpp:1549-1556 | listed names follow the order of the sorted categories |
| Snapshots.GroupNameFrom | omega/pvr.disptacharr-master/src/addon.cpp:1549-1556 | each listed name is the name of a sorted category |
| Snapshots.LiveGroupNames | omega/pvr.disptacharr-master/src/addon.cpp:1985-1995 | the live build lists only names whose groups have members |
| Snapshots.LiveGroupNamesComplete | omega/pvr.disptacharr-master/src/addon.cpp:1985-1995 | every category whose group has members contributes its name |
| Snapshots.UidMap | omega/pvr.disptacharr-master/src/addon.cpp:1963 | a uid is in the map exactly when some entry carries it |
| Snapshots.UidMapFirstWins | omega/pvr.disptacharr-master/src/addon.cpp:1963 | the map keeps the stream id of the first entry for a uid |
| Orchestrator.WithDefaults | omega/pvr.disptacharr-master/src/addon.cpp:2130-2150 | an empty stream format, numbering or category mode never survives: `ts`, `sequential` and `all` replace them |
| Orchestrator.FromXml | omega/pvr.disptacharr-master/src/addon.cpp:2159-2178 | corrected reader: format, numbering and mode are only replaced by non-empty values, a stored filter even when empty replaces the current one, and the separator flag is kept |
| Orchestrator.ResolvedSettings | omega/pvr.disptacharr-master/src/addon.cpp:2130-2179 | corrected reader: the resolved format, numbering and mode are never empty, and Kodi's filter texts are kept unless they look like defaults |
| Orchestrator.KodiSettingsWin | omega/pvr.disptacharr-master/src/addon.cpp:2155-2157 | settings that do not look like defaults are taken from Kodi alone |
| Orchestrator.StoredFilterUsed | omega/pvr.disptacharr-master/src/addon.cpp:2159-2174 | when Kodi reports defaults, a channel filter stored in settings.xml is the one used |
| Orchestrator.SignatureSeparatorFlag | omega/pvr.disptacharr-master/src/addon.cpp:2181-2185 | the signature ends with the separator flag, `sep=1` or `sep=0`, so settings differing only in it never share a cache |
| Orchestrator.StartsLoadMeaning | omega/pvr.disptacharr-master/src/addon.cpp:2197-2203 | a load starts exactly when the signature changed, or when nothing is loaded or loading for it |
| Orchestrator.CacheSeed | omega/pvr.disptacharr-master/src/addon.cpp:1447-1574 | a seed is the decoded cache of a file written under the signature, and only when no channels are published |
| Orchestrator.SeedKeepsChannels | omega/pvr.disptacharr-master/src/addon.cpp:1561-1562 | published channels are never replaced from the cache |
| Orchestrator.SeedNeedsSignature | omega/pvr.disptacharr-master/src/addon.cpp:1463-1464 | a cache written under another signature seeds nothing, whatever follows it |
| Orchestrator.WholeCacheNeedsSignature | omega/pvr.disptacharr-master/src/addon.cpp:1463-1464 | a whole cache written under another signature seeds nothing |
| Orchestrator.SeedFromSavedCache | omega/pvr.disptacharr-master/src/addon.cpp:1447-1574 | a cache written under the signature seeds an empty client with the snapshot of what was written |
| Orchestrator.ConfigFor | omega/pvr.disptacharr-master/src/addon.cpp:2209-2229 | a load starts with the resolved settings, with format, numbering and mode lower-cased |
| Orchestrator.FetchLiveStreams | omega/pvr.disptacharr-master/src/addon.cpp:1711-1784 | corrected fetch step: the worker's streams calls give `FetchForJob` for the job, which never goes on to build after a failed fallback |
| Orchestrator.UsableUrl | omega/pvr.disptacharr-master/src/addon.cpp:982 | a prepared URL is used only while it has not expired and is not empty |
| Orchestrator.ConsumeCatchup | omega/pvr.disptacharr-master/src/addon.cpp:979-997 | a prepared URL for the channel is removed whether or not it is used, and becomes the active catch-up when usable; without one the active catch-up is cleared |
| Orchestrator.CatchupUsedOnce | omega/pvr.disptacharr-master/src/addon.cpp:979-997 | a prepared URL is used at most once: the next request on the channel is live |
| Orchestrator.CatchupLifetime | omega/pvr.disptacharr-master/src/addon.cpp:1355 | a URL prepared at a time is usable for 30 seconds after it and not later |
| Orchestrator.ThrottleWindow | omega/pvr.disptacharr-master/src/addon.cpp:402-414 | after a trigger goes through at a non-zero time, every trigger within the next 2000 ms is dropped and one at 2000 ms goes through |
| Orchestrator.Addon.constructor | omega/pvr.disptacharr-master/src/addon.cpp:2246-2292 | a new client has nothing loaded, loading or requested, generation 0 and no signatures |
| Orchestrator.Addon.TryLoadCacheForSignature | omega/pvr.disptacharr-master/src/addon.cpp:1447-1574 | the published snapshot becomes the cache seed when there is one and is unchanged otherwise |
| Orchestrator.Addon.AttemptCacheOnce | omega/pvr.disptacharr-master/src/addon.cpp:2191-2195 | the cache is tried only for a signature not tried before, and that signature is recorded |
| Orchestrator.Addon.StartLoad | omega/pvr.disptacharr-master/src/addon.cpp:2206-2233 | a load stores the signature and configuration, bumps the generation and requests work |
| Orchestrator.Addon.LoadForSignature | omega/pvr.disptacharr-master/src/addon.cpp:2191-2233 | the cache is tried once per signature, then a load starts exactly when `StartsLoad` holds |
| Orchestrator.Addon.EnsureLoaded | omega/pvr.disptacharr-master/src/addon.cpp:2089-2241 | corrected reader: without credentials only the warning flag changes; otherwise the settings are resolved and the load proceeds as `LoadForSignature` |
| Orchestrator.Addon.WorkerTake | omega/pvr.disptacharr-master/src/addon.cpp:1649-1667 | the worker consumes the request and copies the generation, configuration and signature |
| Orchestrator.Addon.FailLoad | omega/pvr.disptacharr-master/src/addon.cpp:1700-1710 | a failed load leaves nothing loaded, loading or requested |
| Orchestrator.Addon.CategoriesFetched | omega/pvr.disptacharr-master/src/addon.cpp:1673-1691 | a stale job is dropped with the state unchanged; a failed call ends the load; otherwise the cycle proceeds |
| Orchestrator.Addon.StreamsFetched | omega/pvr.disptacharr-master/src/addon.cpp:1713-1786 | a failure ends the load, except after a failed fallback, where the cycle goes on with no streams; a stale job is then dropped |
| Orchestrator.Addon.Publish | omega/pvr.disptacharr-master/src/addon.cpp:2000-2015 | a job still current replaces what Kodi is served and marks the data loaded; a stale one changes nothing |
| Orchestrator.Addon.EpgParsed | omega/pvr.disptacharr-master/src/addon.cpp:2021-2028 | a parsed guide replaces the EPG, with no generation check |
| Orchestrator.Addon.SaveCacheAsWritten | omega/pvr.disptacharr-master/src/addon.cpp:2052-2053 | as written, the cache is keyed by the signature in force at the end of the cycle |
| Orchestrator.Addon.SaveCacheForJob | omega/pvr.disptacharr-master/src/addon.cpp:2052-2053 | corrected: the cache is keyed by the signature the job was built under |
| Orchestrator.Addon.BuildAndPublish | omega/pvr.disptacharr-master/src/addon.cpp:1785-2053 | corrected matcher and cache key: the cycle builds `BuildFrom` of the fetched streams, publishes when current, and writes the cache for the job's signature |
| Orchestrator.Addon.FinishCycle | omega/pvr.disptacharr-master/src/addon.cpp:1711-2053 | corrected fetch step, matcher and cache key: the cycle succeeds exactly when the streams calls did not fail, and then builds and publishes what `BuildFrom` gives |
| Orchestrator.Addon.BeginCycle | omega/pvr.disptacharr-master/src/addon.cpp:1649-1691 | the worker takes the request as a job and goes on only when the categories call succeeded for a current job |
| Orchestrator.Addon.TriggerRefreshThrottled | omega/pvr.disptacharr-master/src/addon.cpp:402-414 | a trigger fires exactly as `ThrottleFires` says, and the last trigger time moves only when it fires |
| Orchestrator.Addon.StorePendingCatchup | omega/pvr.disptacharr-master/src/addon.cpp:1350-1356 | the channel's pending catch-up becomes the URL with a 30-second expiry; no other channel's changes |
| Orchestrator.Addon.TakePendingCatchup | omega/pvr.disptacharr-master/src/addon.cpp:979-997 | the lookup returns the URL and the new catch-up state that `ConsumeCatchup` gives |
| Orchestrator.StaleJobNotPublished | omega/pvr.disptacharr-master/src/addon.cpp:1649-2015 | a job overtaken by a settings change that starts a new load is never published |
| Orchestrator.CacheSavedUnderNewerSignature | omega/pvr.disptacharr-master/src/addon.cpp:2053 | as written, a cycle overtaken by a settings change files its old channels under the new signature, so a start under the new settings is seeded with them; keyed by the job's signature, the file seeds nothing under the new one |
| Playback.TagsInWindow | omega/pvr.disptacharr-master/src/addon.cpp:1143-1175 | no more tags than entries |
| Playback.TagsInWindowMeaning | omega/pvr.disptacharr-master/src/addon.cpp:1148-1150 | a tag is returned exactly for an entry that neither ends before the window nor starts after it |
| Playback.AddTagsInWindow | omega/pvr.disptacharr-master/src/addon.cpp:1143-1175 | the loop gives `TagsInWindow` of the channel's entries |
| Playback.EpgEntriesFor | omega/pvr.disptacharr-master/src/addon.cpp:1111-1141 | entries are found only when the guide and the uid map are loaded, the uid maps to a stream and the guide has entries for that stream id's decimal text |
| Playback.GetEpgForChannel | omega/pvr.disptacharr-master/src/addon.cpp:1107-1178 | the tags of the channel's guide entries that overlap the window |
| Playback.FirstStreamFor | omega/pvr.disptacharr-master/src/addon.cpp:1218-1238 | the stream found is the first in list order whose id folds to the uid, and none is found only when no stream's id folds to it |
| Playback.FutureNeverPlayable | omega/pvr.disptacharr-master/src/addon.cpp:1209-1210 | a programme that has not started is never playable |
| Playback.PlayableMeaning | omega/pvr.disptacharr-master/src/addon.cpp:1182-1239 | playable exactly when streams are loaded, the programme has started, it is over or play-from-start is on, and the first stream for the channel has an archive reaching back to its end |
| Playback.RecentlyEndedIsPlayable | omega/pvr.disptacharr-master/src/addon.cpp:1226-1236 | a programme that ended within the archive's hours on an archived channel is playable |
| Playback.DecodeClientIndex | omega/pvr.disptacharr-master/src/addon.cpp:831-858 | an index of 30000 or more is a recording, 20000 to 29999 a recurring rule, 10000 to 19999 a series rule |
| Playback.ClientIndexRoundTrip | omega/pvr.disptacharr-master/src/addon.cpp:647-693 | each timer kind is decoded back to its own number while that number stays below the next range |
| Playback.ClientIndexRangesOverlap | omega/pvr.disptacharr-master/src/addon.cpp:664-693 | the ranges are not closed: recurring rule 10000 gets the index of recording 0 |
| DvrJson.ArrayEnd | omega/pvr.disptacharr-master/src/dispatcharr_client.cpp:238-261 | the walk stops at or after where it starts and never beyond the body |
| DvrJson.ForEachObjectInArray | omega/pvr.disptacharr-master/src/dispatcharr_client.cpp:227-263 | the walker answers whether the body is an array, and hands the callback exactly `ArraySpans`, in order |
| DvrJson.ArrayStep | omega/pvr.disptacharr-master/src/dispatcharr_client.cpp:240-260 | one byte of the walk keeps the spans handed out so far plus the spans still to come unchanged |
| DvrJson.ArrayScanIsCutScan | omega/pvr.disptacharr-master/src/dispatcharr_client.cpp:238-261 | the walk reports what the Xtream walker reports for the body cut at the array's closing bracket |
| DvrJson.GoodSpansOfPrefix | omega/pvr.disptacharr-master/src/dispatcharr_client.cpp:238-261 | balanced objects inside a prefix of the body are balanced objects of the body |
| DvrJson.ArraySpansAreObjects | omega/pvr.disptacharr-master/src/dispatcharr_client.cpp:227-263 | every reported object lies after the `[`, is one balanced object, and the objects come in order without overlapping |
| DvrJson.StopsAtClosingBracket | omega/pvr.disptacharr-master/src/dispatcharr_client.cpp:256-258 | an empty array is still an array, and an object after the array's `]` is not reported |
| DvrJson.FlagAt | omega/pvr.disptacharr-master/src/dispatcharr_client.cpp:103-110 | a flag is read only from a non-space byte, true exactly for `t` or `1` |
| DvrJson.FlagAtReadsBack | omega/pvr.disptacharr-master/src/dispatcharr_client.cpp:106-109 | `true`, `false`, `1` and `0` are read back as the flag they stand for |
| DvrJson.QuotedDigitNotRead | omega/pvr.disptacharr-master/src/dispatcharr_client.cpp:96-111 | a flag written as a quoted digit is not read here, though the Xtream reader reads it |
| DvrJson.Unescape | omega/pvr.disptacharr-master/src/dispatcharr_client.cpp:133-140 | any escaped byte other than `n`, `r` and `t` is kept as it is |
| DvrJson.ExtractStringField | omega/pvr.disptacharr-master/src/dispatcharr_client.cpp:113-150 | the reader finds a string exactly when `TextField` does, and returns its bytes |
| DvrJson.EscapeByte | omega/pvr.disptacharr-master/src/dispatcharr_client.cpp:186-196 | exactly seven bytes get a two-byte backslash form; every other byte is copied |
| DvrJson.Escaped | omega/pvr.disptacharr-master/src/dispatcharr_client.cpp:183-199 | the escaped text is at least as long as the input and at most twice as long |
| DvrJson.EscapedSnoc | omega/pvr.disptacharr-master/src/dispatcharr_client.cpp:185-197 | escaping one more byte appends its escape |
| DvrJson.JsonEscape | omega/pvr.disptacharr-master/src/dispatcharr_client.cpp:183-199 | the loop gives `Escaped` of the input |
| DvrJson.EscapeByteDecodes | omega/pvr.disptacharr-master/src/dispatcharr_client.cpp:125-146 | the reader turns each escaped byte other than a backspace or form feed back into the byte |
| DvrJson.EscapedDecodes | omega/pvr.disptacharr-master/src/dispatcharr_client.cpp:125-146 | an escaped run reads back as the original bytes, followed by what comes after it |
| DvrJson.EscapedHeadSplit | omega/pvr.disptacharr-master/src/dispatcharr_client.cpp:185-197 | the escape of a text is the escape of its first byte followed by the escape of the rest |
| DvrJson.TextInSequence | omega/pvr.disptacharr-master/src/dispatcharr_client.cpp:125-146 | two escaped runs in a row read back as the two texts in a row |
| DvrJson.EscapeRoundTrip | omega/pvr.disptacharr-master/src/dispatcharr_client.cpp:113-199 | text written by `JsonEscape` and closed by a quote reads back as the original, when it holds no backspace or form feed |
| DvrJson.QuotedValueAt | omega/pvr.disptacharr-master/src/dispatcharr_client.cpp:120-146 | a quoted escaped value at a position reads back as the text |
| DvrJson.QuotedLayout | omega/pvr.disptacharr-master/src/dispatcharr_client.cpp:113-150 | where the key, colon, quotes and text of a written field sit |
| DvrJson.TextFieldReadsBack | omega/pvr.disptacharr-master/src/dispatcharr_client.cpp:113-150 | a string field a writer put at the first mention of its key reads back as the text, when the key holds no colon and the text no backspace or form feed |
| DvrJson.TextFieldOfLayout | omega/pvr.disptacharr-master/src/dispatcharr_client.cpp:113-150 | the quoted escaped text at the value's start is the field's value |
| DvrJson.TextFieldAt | omega/pvr.disptacharr-master/src/dispatcharr_client.cpp:115-122 | the field's value is what the reader gives just after the opening quote |
| DvrJson.BackspaceReadsAsB | omega/pvr.disptacharr-master/src/dispatcharr_client.cpp:133-140 | a backspace is written as a backslash and `b` and read back as a plain `b` |
| DvrJson.RawAt | omega/pvr.disptacharr-master/src/dispatcharr_client.cpp:160-179 | a raw value found starts with `[` or `{`, is at least two bytes and balances its own bracket kind |
| DvrJson.DepthSnoc | omega/pvr.disptacharr-master/src/dispatcharr_client.cpp:168-178 | one more byte changes the bracket count by the bracket it is |
| DvrJson.MatchEndMeaning | omega/pvr.disptacharr-master/src/dispatcharr_client.cpp:168-178 | the count loop ends exactly where a prefix first balances, and finds nothing when none does |
| DvrJson.ExtractRawJsonField | omega/pvr.disptacharr-master/src/dispatcharr_client.cpp:152-180 | the reader finds a value exactly when `RawField` does, and returns its text |
| DvrJson.ScanDaysOfWeek | omega/pvr.disptacharr-master/src/dispatcharr_client.cpp:522-537 | the scan gives `DaysOfWeek`: the digits between the first `[` after the key and the next `]` |
| DvrJson.DigitsInConcat | omega/pvr.disptacharr-master/src/dispatcharr_client.cpp:530-535 | the digits of two texts laid end to end are the digits of each in turn |
| DvrJson.DigitOfSmall | omega/pvr.disptacharr-master/src/dispatcharr_client.cpp:531-532 | a single digit's decimal text is its one digit character |
| DvrJson.DaysTextLast | omega/pvr.disptacharr-master/src/dispatcharr_client.cpp:556-559 | the written days end with a comma and the last day's digit |
| DvrJson.DigitsAfterComma | omega/pvr.disptacharr-master/src/dispatcharr_client.cpp:530-535 | a comma and a digit add that digit to the digits read |
| DvrJson.DaysTextReadsBack | omega/pvr.disptacharr-master/src/dispatcharr_client.cpp:530-535 | days written as single digits are read back as written, in order |
| DvrJson.BracketsAt | omega/pvr.disptacharr-master/src/dispatcharr_client.cpp:524-527 | the bracket scan reads between the first `[` after the key and the next `]` |
| DvrJson.NeedleHasNoBracket | omega/pvr.disptacharr-master/src/dispatcharr_client.cpp:40-45 | a key without `[` gives a quoted needle without `[` |
| DvrJson.BracketLayout | omega/pvr.disptacharr-master/src/dispatcharr_client.cpp:524-527 | where the key, `[`, body and `]` of a written array sit |
| DvrJson.BracketsInLayout | omega/pvr.disptacharr-master/src/dispatcharr_client.cpp:524-527 | no `[` between the key and the written `[`, and no `]` before the written `]` |
| DvrJson.SpanAtLayout | omega/pvr.disptacharr-master/src/dispatcharr_client.cpp:524-527 | the bracket scan stops at the written brackets |
| DvrJson.DigitsFromSpan | omega/pvr.disptacharr-master/src/dispatcharr_client.cpp:528-535 | the digits read are those of the text between the brackets |
| DvrJson.DigitsAtLayout | omega/pvr.disptacharr-master/src/dispatcharr_client.cpp:522-537 | the digits of a written array body are read back |
| DvrJson.DigitsOfFoundLayout | omega/pvr.disptacharr-master/src/dispatcharr_client.cpp:522-537 | once the key is found at the written place, the body's digits are read back |
| DvrJson.DigitsInBracketsReadBack | omega/pvr.disptacharr-master/src/dispatcharr_client.cpp:522-537 | digits a writer put as `"key":[...]` at the first mention of the key are read back, when the key holds no `[` and the body no `]` |
| DvrJson.DaysOfWeekReadsBack | omega/pvr.disptacharr-master/src/dispatcharr_client.cpp:522-537 | single-digit days a writer put under `days_of_week` at the first mention of the key are read back in order |
| DvrJson.DaysTextHasNoCloser | omega/pvr.disptacharr-master/src/dispatcharr_client.cpp:555-560 | the written days hold no `]` |
| DvrJson.DaysKeyHasNoBracket | omega/pvr.disptacharr-master/src/dispatcharr_client.cpp:522 | the `days_of_week` key holds no `[` |
| DvrJson.DaysTextBytes | omega/pvr.disptacharr-master/src/dispatcharr_client.cpp:556-559 | the written days hold only digits and commas |
| Dispatcharr.BaseUrlShape | omega/pvr.disptacharr-master/src/dispatcharr_client.cpp:272-303 | every base URL has a scheme and starts with the server without its trailing slashes; the port is appended exactly when it is positive, not 80, and the host part names none |
| Dispatcharr.WithoutTrailingSlashesSnoc | omega/pvr.disptacharr-master/src/dispatcharr_client.cpp:274-276 | one more trailing slash is popped like the others |
| Dispatcharr.TrailingSlashIgnored | omega/pvr.disptacharr-master/src/dispatcharr_client.cpp:274-276 | a trailing slash on the server does not change the base URL |
| Dispatcharr.UnschemedServerKeepsPort | omega/pvr.disptacharr-master/src/dispatcharr_client.cpp:278-300 | a server without a scheme that names a port gets `http://` and nothing after it |
| Dispatcharr.SchemedServerGetsPort | omega/pvr.disptacharr-master/src/dispatcharr_client.cpp:278-300 | a server with a scheme and no port in its host part gets any port other than 80 appended |
| Dispatcharr.ChannelOf | omega/pvr.disptacharr-master/src/dispatcharr_client.cpp:585-593 | an object yields a channel exactly when its `id` reads as an integer; a missing number is 0 and a missing name or uuid is empty |
| Dispatcharr.ArrayObjects | omega/pvr.disptacharr-master/src/dispatcharr_client.cpp:227-263 | one text per span the walker reports, each a balanced object |
| Dispatcharr.ChannelsMembers | omega/pvr.disptacharr-master/src/dispatcharr_client.cpp:579-597 | a channel is listed exactly when some object of the reply yields it, and never more channels than objects |
| Dispatcharr.LastWinsKeys | omega/pvr.disptacharr-master/src/dispatcharr_client.cpp:611-615 | a map filled by assignment has exactly the keys assigned |
| Dispatcharr.LastWinsValue | omega/pvr.disptacharr-master/src/dispatcharr_client.cpp:611-615 | the last value assigned to a key is the one kept |
| Dispatcharr.NumberToIdMeaning | omega/pvr.disptacharr-master/src/dispatcharr_client.cpp:611-615 | the number map has a key for every channel number and no other, holding the id of the last channel with that number |
| Dispatcharr.IdToNumberMeaning | omega/pvr.disptacharr-master/src/dispatcharr_client.cpp:611-615 | the id map has a key for every channel id and no other, holding the number of the last channel with that id |
| Dispatcharr.EmptyMapsNoChannels | omega/pvr.disptacharr-master/src/dispatcharr_client.cpp:601-615 | both maps are empty exactly when there are no channels, so an empty list is fetched again next time |
| Dispatcharr.MappingsInverse | omega/pvr.disptacharr-1.2.1/src/dispatcharr_client.h:98-99 | with distinct numbers and ids, a number's id maps back to the number |
| Dispatcharr.SharedNumberLaterWins | omega/pvr.disptacharr-master/src/dispatcharr_client.cpp:611-615 | with two channels sharing a number, the later id wins in the number map and the earlier id no longer maps back through it |
| Dispatcharr.MapsSnoc | omega/pvr.disptacharr-master/src/dispatcharr_client.cpp:611-615 | one more channel updates both maps at its number and its id |
| Dispatcharr.Client.constructor | omega/pvr.disptacharr-master/src/dispatcharr_client.cpp:268-270 | a new client holds its settings and empty maps |
| Dispatcharr.Client.GetBaseUrl | omega/pvr.disptacharr-master/src/dispatcharr_client.cpp:272-303 | the method returns `BaseUrl` of its settings |
| Dispatcharr.Client.FetchChannels | omega/pvr.disptacharr-master/src/dispatcharr_client.cpp:579-597 | succeeds exactly when the token step succeeds and the status is 200, with the channels read from the body; fails with no channels otherwise |
| Dispatcharr.Client.EnsureChannelMapping | omega/pvr.disptacharr-master/src/dispatcharr_client.cpp:599-620 | with a non-empty number map nothing changes; otherwise it succeeds exactly when the fetch does, and both maps are then filled from the fetched channels in order |
| Dispatcharr.Client.GetDispatchChannelId | omega/pvr.disptacharr-master/src/dispatcharr_client.cpp:621-635 | the id the mapping gives the Kodi uid, or -1 |
| Dispatcharr.Client.GetKodiChannelUid | omega/pvr.disptacharr-master/src/dispatcharr_client.cpp:637-648 | the channel number the mapping gives the Dispatcharr id, or -1 |
| Dispatcharr.ContainsOccurrence | omega/pvr.disptacharr-master/src/dispatcharr_client.cpp:488 | a text in which the pattern occurs contains it |
| Dispatcharr.SuccessChecks | omega/pvr.disptacharr-master/src/dispatcharr_client.cpp:476-710 | a created reply carrying the key is accepted; 204 deletes but creates nothing; the series check accepts whatever the recurring check accepts |
| Dispatcharr.EmptyReplyRefused | omega/pvr.disptacharr-master/src/dispatcharr_client.cpp:476-569 | a 201 reply `{}` adds no rule |
| Dispatcharr.SeriesRuleBodyReadsBack | omega/pvr.disptacharr-master/src/dispatcharr_client.cpp:449-493 | the `tvg_id` posted by `AddSeriesRule` is what `FetchSeriesRules` reads back, for an id without backspace or form feed |
| Dispatcharr.RecurringRuleDaysReadBack | omega/pvr.disptacharr-master/src/dispatcharr_client.cpp:504-569 | the days posted by `AddRecurringRule` are what `FetchRecurringRules` reads back, when they are single digits |

## Left out

- HTTP transport (`HttpGet`, `ReadAll`, `MakeSimpleGetAndSniffJson`, `TestConnection`, the Dispatcharr `Request` and `EnsureToken`): every reply is a parameter (`HttpReply`, `HttpResponse`, a `tokenOk` flag), since the network cannot be modelled.
- File system and settings store (`ReadFileToString`, `WriteStringToFileAtomic`, `TranslateSpecial`, `ReadVfsTextFile`, `LoadSettings`, Kodi's `GetSetting*`): the cache file and `settings.xml` contents are `Option<string>` parameters and the cache write returns the blob; atomic rename is operating-system behaviour.
- Threads, the mutex, the condition variable, `std::atomic` and the bootstrap thread: the worker is a sequence of explicit steps on the `Orchestrator.Addon` object (`WorkerTake`, `BeginCycle`, `FinishCycle`, `Publish`); interleavings are modelled only as the orders `StaleJobNotPublished` and `CacheSavedUnderNewerSignature` run the steps in.
- Clock reads (`std::time`, `steady_clock`): the current time is a parameter (`now`, `nowMs`, the cache timestamp `ts`).
- The pugixml parse of the guide: the correlator takes the `<channel>` and `<programme>` elements as records (`Xmltv.XmltvDoc`); a document pugixml rejects is not modelled.
- Kodi presentation glue (`GetChannels`, `GetChannelGroups`, `GetChannelGroupMembers`, `GetTimerTypes`, `GetTimers`, `AddTimer`, the stream-property lists, notifications, logging): these copy the published snapshot into Kodi types; `SetIsRadio(false)` and the EPG tag's episode, icon, genre, year, rating, season and episode numbers are not carried in `Playback.EpgTag`.
- `ParseIsoTime` (`mktime`), `TimeToIso` and `AddTimer`'s `localtime_r`: they depend on the process time zone, so recording times and the `ScheduleRecording` body are not modelled.
- `FetchSeriesRules`, `FetchRecurringRules` and `FetchRecordings` record assembly: only the `tvg_id` read (`Dispatcharr.SeriesRuleBodyReadsBack`) and the `days_of_week` scan (`DvrJson.ScanDaysOfWeek`) are modelled; the other fields reuse the modelled extractors.
- `AddSeriesRule`, `DeleteSeriesRule`, `AddRecurringRule`, `DeleteRecurringRule`, `DeleteRecording` and `ScheduleRecording` are modelled as their request bodies and their success predicates over `(status, body)`, since the call itself is HTTP.
- `FetchAllLiveStreams` (nexus/pvr.disptacharr-1.2.1/src/xtream_client.cpp:947-984) is not called by the add-on's worker and is not part of this model.
- The uint64 generation counter and the `int` channel counters are unbounded naturals: a wrap after 2^64 refreshes or 2^31 channels is not modelled. Signed `int` overflow, undefined in C++, is modelled as two's-complement wrap-around (`Text.WrapInt32`).
- Iteration order of `std::unordered_map`: the live build's group order comes from the category list, and the cache load sorts categories by id, so no result of the model depends on hash order.
- `gmtime` failure for years that do not fit `struct tm`: `CivilTime.Gmtime` is total.
- Dispatcharr.RecurringRuleDaysReadBack: stated for days that are single digits and a rule whose earlier fields do not mention `"days_of_week"`, because the scan reads digit characters one at a time and stops at the first mention of the key.
- Playback.RecentlyEndedIsPlayable: stated for stream ids in `1..2^31-1`, no earlier stream with the same id, and archive durations below 596524 hours, so that the uid cast and `tvArchiveDuration * 3600` do not wrap; `Playback.PlayableMeaning` states the decision for all inputs.
- CivilTime.FormatCatchupStartReadsBack: stated for instants from 1970 up to the end of year 9999, the years a four-digit field can spell.
- XmltvTime.XmltvInstantOfStamp: stated for years 0 to 9999, the years a four-digit field can spell.
- Patterns.PatternMatchesLower: the corrected half of the wildcard finding; a pattern with `*` is decided by `Glob`, so a name with `*` in it, such as `*VIP* ESPN` under the pattern `*vip*`, matches here but not in the source (`Patterns.WildcardMatchAsWritten` is the code as written).
- Patterns.MatchPattern: dispatches to the corrected wildcard matcher, as `Patterns.PatternMatchesLower` does.
- Patterns.ShouldFilterOut: uses the corrected matcher, so it drops names with `*` that the source keeps.
- ChannelBuild.KeepCatIds: uses the corrected matcher, so a category name with `*` in it can be kept or dropped unlike the source.
- ChannelBuild.PlanFetch: its kept ids come from the corrected matcher.
- ChannelBuild.Kept: the channel and category filters use the corrected matcher.
- ChannelBuild.BuildChannels: publishes the streams the corrected filters keep.
- ChannelBuild.Build: builds with the corrected filters.
- SettingsXml.ExtractSettingValue: the corrected half of the self-closing finding; a self-closing element reads as empty, where the source reads the text of the next element (`SettingsXml.ExtractSettingValueAsWritten` is the code as written).
- Orchestrator.FromXml: reads `settings.xml` with the corrected reader.
- Orchestrator.ResolvedSettings: reads `settings.xml` with the corrected reader, so a self-closing `channel_filter_patterns` gives an empty filter and signature part where the source reads the next element.
- Orchestrator.Addon.EnsureLoaded: resolves the settings with the corrected reader.
- Orchestrator.FetchLiveStreams: the corrected fetch step; a failed fallback call ends the cycle, where the source's `goto fetched` publishes an empty list (`ChannelBuild.FetchStreams` is the code as written; `Orchestrator.Addon.StreamsFetched` keeps that path as a worker step).
- Orchestrator.Addon.BuildAndPublish: builds with the corrected filters and writes the cache under the job's signature, where the source uses the signature current at the end of the cycle (`Orchestrator.Addon.SaveCacheAsWritten` is the code as written).
- Orchestrator.Addon.FinishCycle: uses the corrected fetch step, filters and cache key.
- JsonFields.ParseSignedAt, `JsonSpans.ScanByte`, `DvrJson.ArrayStep`, `Urls.RedactNext` and `Patterns.MatchStep` are the bodies of source loops moved into their own methods; each is one pass of that loop, not a separate source function.

## Findings

| source | as written | input that shows it | evidently intended | confidence | as-written member | corrected member |
|---|---|---|---|---|---|---|
| omega/pvr.disptacharr-master/src/addon.cpp:292-303 | the literal comparison is made before the `*` test, so a `*` in the pattern is matched against a `*` in the text as a plain character and no backtracking point is recorded | pattern `*`, text `*x`: the loop consumes the `*` of both, then fails at `x` | `*` matches any sequence, so `*` matches every name | not executed | Patterns.AsWrittenStarCounterexample | Patterns.WildcardMatchLower |
| nexus/pvr.disptacharr-1.2.1/src/xtream_client.cpp:311-313 | the self-closing test reads the byte before the cursor, which is always the `>` just found, so it never passes (the copy at omega/pvr.disptacharr-master/src/addon.cpp:233-234 is the same) | `<setting id="x" /><setting id="y">v</setting>` read for `x` gives `<setting id="y">v` instead of an empty value | a self-closing element reads as the empty value | not executed | SettingsXml.SelfClosingReadsNextElement | SettingsXml.ExtractSettingValueReadsEmpty |
| omega/pvr.disptacharr-master/src/addon.cpp:1766-1775 | when a per-category call and then the fallback call both fail, `failLoad` runs and `goto fetched` goes on to build and publish an empty channel list, marking the data loaded | a category filter keeping at most 20 categories, with the first category call and the fallback call failing | a failed fallback ends the cycle like every other failed call | not executed | ChannelBuild.FailedFallbackBuilds | ChannelBuild.FetchStreamsCorrected |
| omega/pvr.disptacharr-master/src/addon.cpp:2053 | the cache is written under `m_settingsSignature` as it is at the end of the cycle, after the guide download | `EnsureLoaded` with changed filter settings while the cycle downloads the guide: the old channels are filed under the new signature and seed the next start with the new settings | the cache is keyed by the signature the channels were built under | not executed | Orchestrator.CacheSavedUnderNewerSignature | Orchestrator.Addon.SaveCacheForJob |

/**
 * The XMLTV correlator of `ParseXMLTV` (xtream_client.cpp): three indices
 * over the live streams, a first pass that resolves every `<channel>` to
 * stream ids by a fixed priority, a second pass that files every
 * `<programme>` under the channels its XMLTV id was resolved to, and the
 * final selection of channels that received at least one programme.
 *
 * The XML tree is given already read: a channel is its `id` attribute, the
 * text of its first `<display-name>` and the `src` of its first `<icon>`;
 * a programme is its attributes and the texts of its first child elements.
 * An absent element or attribute is the empty string, as the source reads
 * it.
 */
module Xmltv {
  import opened Text
  import opened Catalog
  import opened EpgNames
  import opened XmltvTime

  /** A `<channel>` element. */
  datatype XChannel = XChannel(id: string, displayName: string, icon: string)

  /** A `<programme>` element. */
  datatype XProgramme = XProgramme(
    channel: string,
    start: string,
    stop: string,
    title: string,
    desc: string,
    subTitle: string,
    icon: string,
    category: string)

  /** A parsed document: the `<channel>` and `<programme>` children of `<tv>`, in order. */
  datatype XmltvDoc = XmltvDoc(channels: seq<XChannel>, programmes: seq<XProgramme>)

  /** `EpgEntry`, with the fields `ParseXMLTV` fills. */
  datatype EpgEntry = EpgEntry(
    channelId: string,
    startTime: int,
    endTime: int,
    title: string,
    description: string,
    episodeName: string,
    iconPath: string,
    genreString: string)

  /** `ChannelEpg`: entries keyed by start time. */
  datatype ChannelEpg = ChannelEpg(id: string, displayName: string, iconPath: string, entries: map<int, EpgEntry>)

  // ---------------------------------------------------------------------------
  // Stream indices
  // ---------------------------------------------------------------------------

  /** The two string-keyed indices: by `epg_channel_id` and by normalised name. */
  datatype IndexKind = EpgIdKey | NameKey

  /** The key a stream is filed under in an index, if any. */
  function KeyOf(kind: IndexKind, st: LiveStream): Option<string> {
    match kind
    case EpgIdKey => if st.epgChannelId != [] then Some(st.epgChannelId) else None
    case NameKey =>
      var n := NormalizedName(st.name);
      if n != [] then Some(ToLower(n)) else None
  }

  function Lookup(m: map<string, seq<int>>, k: string): seq<int> {
    if k in m then m[k] else []
  }

  /**
   * `streamNameToIds` or `xmltvIdToStreamIds`: the ids of the streams with
   * a positive id under each key, in stream order.
   */
  function Index(streams: seq<LiveStream>, kind: IndexKind): (m: map<string, seq<int>>)
    ensures forall k :: k in m ==> m[k] != []
    decreases |streams|
  {
    if streams == [] then map[]
    else
      var st := streams[|streams| - 1];
      File(Index(streams[..|streams| - 1], kind), st.id, KeyOf(kind, st))
  }

  /** `index[key].push_back(id)` for a positive id with a key. */
  function File(m: map<string, seq<int>>, id: int, key: Option<string>): (r: map<string, seq<int>>)
    requires forall k :: k in m ==> m[k] != []
    ensures forall k :: k in r ==> r[k] != []
  {
    if id > 0 && key.Some? then m[key.value := Lookup(m, key.value) + [id]] else m
  }

  /** The keys of `streamIdToName`: every positive stream id. */
  function KnownIds(streams: seq<LiveStream>): set<int>
    decreases |streams|
  {
    if streams == [] then {}
    else
      var st := streams[|streams| - 1];
      KnownIds(streams[..|streams| - 1]) + (if st.id > 0 then {st.id} else {})
  }

  /** Which streams an index lists under a key. */
  /** Stream `st` has the positive id `id` and key `k`. */
  predicate Files(st: LiveStream, kind: IndexKind, k: string, id: int) {
    st.id == id && id > 0 && KeyOf(kind, st) == Some(k)
  }

  predicate FiledUnder(streams: seq<LiveStream>, kind: IndexKind, k: string, id: int) {
    exists j :: 0 <= j < |streams| && Files(streams[j], kind, k, id)
  }

  /** An index lists a stream id under a key exactly when a stream with that id has that key. */
  lemma {:induction false} IndexMeaning(streams: seq<LiveStream>, kind: IndexKind, k: string, id: int)
    ensures id in Lookup(Index(streams, kind), k) <==> FiledUnder(streams, kind, k, id)
    decreases |streams|
  {
    if streams != [] {
      var n := |streams|;
      var init := streams[..n - 1];
      var st := streams[n - 1];
      IndexMeaning(init, kind, k, id);
      IndexLast(streams, kind, k);
      FiledUnderLast(streams, kind, k, id);
    }
  }

  /** The last stream adds its id to the end of its key's list. */
  lemma IndexLast(streams: seq<LiveStream>, kind: IndexKind, k: string)
    requires streams != []
    ensures var st := streams[|streams| - 1];
            Lookup(Index(streams, kind), k) ==
            Lookup(Index(streams[..|streams| - 1], kind), k) + (if st.id > 0 && KeyOf(kind, st) == Some(k) then [st.id] else [])
  {
  }

  lemma FiledUnderLast(streams: seq<LiveStream>, kind: IndexKind, k: string, id: int)
    requires streams != []
    ensures FiledUnder(streams, kind, k, id) <==>
            FiledUnder(streams[..|streams| - 1], kind, k, id) || Files(streams[|streams| - 1], kind, k, id)
  {
    var n := |streams|;
    var init := streams[..n - 1];
    if FiledUnder(init, kind, k, id) {
      var j :| 0 <= j < |init| && Files(init[j], kind, k, id);
      assert streams[j] == init[j];
    }
    if FiledUnder(streams, kind, k, id) {
      var j :| 0 <= j < n && Files(streams[j], kind, k, id);
      if j < n - 1 {
        assert init[j] == streams[j];
      }
    }
  }

  /** `streamIdToName` knows an id exactly when some stream has that positive id. */
  lemma {:induction false} KnownIdsMeaning(streams: seq<LiveStream>, id: int)
    ensures id in KnownIds(streams) <==> exists j :: 0 <= j < |streams| && streams[j].id == id && id > 0
    decreases |streams|
  {
    if streams != [] {
      var n := |streams|;
      var init := streams[..n - 1];
      KnownIdsMeaning(init, id);
      if id in KnownIds(init) {
        var j :| 0 <= j < |init| && init[j].id == id && id > 0;
        assert streams[j] == init[j];
      }
      if exists j :: 0 <= j < n && streams[j].id == id && id > 0 {
        var j :| 0 <= j < n && streams[j].id == id && id > 0;
        if j < n - 1 {
          assert init[j] == streams[j];
        }
      }
    }
  }

  datatype Indices = Indices(known: set<int>, byEpgId: map<string, seq<int>>, byName: map<string, seq<int>>)

  function IndicesOf(streams: seq<LiveStream>): Indices {
    Indices(KnownIds(streams), Index(streams, EpgIdKey), Index(streams, NameKey))
  }

  /** The three indices after one more stream. */
  function AddToIndices(ix: Indices, st: LiveStream): Indices
    requires forall k :: k in ix.byEpgId ==> ix.byEpgId[k] != []
    requires forall k :: k in ix.byName ==> ix.byName[k] != []
  {
    Indices(ix.known + (if st.id > 0 then {st.id} else {}),
            File(ix.byEpgId, st.id, KeyOf(EpgIdKey, st)),
            File(ix.byName, st.id, KeyOf(NameKey, st)))
  }

  lemma IndicesStep(streams: seq<LiveStream>, i: nat)
    requires i < |streams|
    ensures IndicesOf(streams[..i + 1]) == AddToIndices(IndicesOf(streams[..i]), streams[i])
  {
    assert streams[..i + 1][..i] == streams[..i];
  }

  /** The index-building loop at the start of `ParseXMLTV`. */
  method BuildIndices(streams: seq<LiveStream>) returns (ix: Indices)
    ensures ix == IndicesOf(streams)
  {
    ix := Indices({}, map[], map[]);
    var i := 0;
    while i < |streams|
      invariant 0 <= i <= |streams|
      invariant ix == IndicesOf(streams[..i])
    {
      IndicesStep(streams, i);
      ix := AddStream(ix, streams[i]);
      i := i + 1;
    }
    assert streams[..i] == streams;
  }

  /** The body of the index-building loop. */
  method AddStream(ix: Indices, st: LiveStream) returns (r: Indices)
    requires forall k :: k in ix.byEpgId ==> ix.byEpgId[k] != []
    requires forall k :: k in ix.byName ==> ix.byName[k] != []
    ensures r == AddToIndices(ix, st)
  {
    r := ix;
    if st.id > 0 {
      var byName := FileByName(ix.byName, st);
      var byEpgId := FileByEpgId(ix.byEpgId, st);
      r := Indices(ix.known + {st.id}, byEpgId, byName);
    }
  }

  /** `streamNameToIds[ToLower(normName)].push_back(stream.id)` when the normalised name is not empty. */
  method FileByName(m: map<string, seq<int>>, st: LiveStream) returns (r: map<string, seq<int>>)
    requires forall k :: k in m ==> m[k] != []
    requires st.id > 0
    ensures r == File(m, st.id, KeyOf(NameKey, st))
  {
    r := m;
    var norm := NormalizeChannelNameForEpg(st.name);
    if norm != [] {
      var key := ToLower(norm);
      r := r[key := Lookup(r, key) + [st.id]];
    }
  }

  /** `xmltvIdToStreamIds[stream.epgChannelId].push_back(stream.id)` when the epg id is not empty. */
  method FileByEpgId(m: map<string, seq<int>>, st: LiveStream) returns (r: map<string, seq<int>>)
    requires forall k :: k in m ==> m[k] != []
    requires st.id > 0
    ensures r == File(m, st.id, KeyOf(EpgIdKey, st))
  {
    r := m;
    if st.epgChannelId != [] {
      r := r[st.epgChannelId := Lookup(r, st.epgChannelId) + [st.id]];
    }
  }

  // ---------------------------------------------------------------------------
  // Resolving a channel
  // ---------------------------------------------------------------------------

  const LongMax: int := 0x7FFF_FFFF_FFFF_FFFF
  const LongMin: int := -0x8000_0000_0000_0000

  /**
   * `strtol(s, &end, 10)` when `*end == '\0'`: white space, an optional
   * sign and at least one digit that run to the end of the string, clamped
   * to the range of a 64-bit `long`; `None` when the digits do not reach
   * the end.
   */
  function StrtolWhole(s: string): (r: Option<int>)
    ensures r.Some? ==> LongMin <= r.value <= LongMax
  {
    var p := SkipSpaces(s, 0);
    var signed := p < |s| && (s[p] == '-' || s[p] == '+');
    var q := if signed then p + 1 else p;
    var e := DigitsEnd(s, q);
    if e == q || e != |s| then None
    else
      var v: int := DigitsValue(s[q..e]);
      var n := if signed && s[p] == '-' then -v else v;
      Some(if n > LongMax then LongMax else if n < LongMin then LongMin else n)
  }

  /** The stream id a numeric XMLTV id names: positive as a `long`, then cast to `int`. */
  function NumericStreamId(xmltvId: string): Option<int> {
    var n := StrtolWhole(xmltvId);
    if n.Some? && n.value > 0 then Some(WrapInt32(n.value)) else None
  }

  /** Which rule matched a channel. */
  datatype Rule = ByEpgId | ByNumericId | ByName | Unmatched

  datatype Resolution = Resolution(rule: Rule, ids: seq<string>)

  /** `std::to_string` of each id. */
  function IdStrings(ids: seq<int>): (r: seq<string>)
    ensures |r| == |ids|
    ensures forall j :: 0 <= j < |ids| ==> r[j] == IntToString(ids[j])
  {
    seq(|ids|, j requires 0 <= j < |ids| => IntToString(ids[j]))
  }

  /** The lookup key of a display name in the name index, empty when the name normalises to nothing. */
  function NameLookupKey(displayName: string): string {
    var n := NormalizedName(displayName);
    if n == [] then [] else ToLower(n)
  }

  /**
   * The three rules in priority order: the `epg_channel_id` index, then a
   * numeric id of a known stream, then the normalised display name.
   */
  function Resolve(ch: XChannel, ix: Indices): (res: Resolution)
    requires forall k :: k in ix.byEpgId ==> ix.byEpgId[k] != []
    requires forall k :: k in ix.byName ==> ix.byName[k] != []
    ensures res.rule == Unmatched <==> res.ids == []
  {
    if Lookup(ix.byEpgId, ch.id) != [] then Resolution(ByEpgId, IdStrings(ix.byEpgId[ch.id]))
    else
      var n := NumericStreamId(ch.id);
      if n.Some? && n.value in ix.known then Resolution(ByNumericId, [IntToString(n.value)])
      else
        var key := NameLookupKey(ch.displayName);
        if key != [] && Lookup(ix.byName, key) != [] then Resolution(ByName, IdStrings(ix.byName[key]))
        else Resolution(Unmatched, [])
  }

  /** Some stream lists the channel's XMLTV id as its `epg_channel_id`. */
  predicate EpgIdMatch(streams: seq<LiveStream>, ch: XChannel) {
    exists j :: 0 <= j < |streams| && streams[j].id > 0 && streams[j].epgChannelId != [] && streams[j].epgChannelId == ch.id
  }

  /** The channel's XMLTV id is numeric and names a known stream. */
  predicate NumericMatch(streams: seq<LiveStream>, ch: XChannel) {
    NumericStreamId(ch.id).Some? &&
    exists j :: 0 <= j < |streams| && streams[j].id > 0 && streams[j].id == NumericStreamId(ch.id).value
  }

  /** Some stream's normalised, lowercased name equals the channel's. */
  predicate NameMatch(streams: seq<LiveStream>, ch: XChannel) {
    NameLookupKey(ch.displayName) != [] &&
    exists j :: 0 <= j < |streams| && streams[j].id > 0 && KeyOf(NameKey, streams[j]) == Some(NameLookupKey(ch.displayName))
  }

  /**
   * Each channel resolves by exactly one rule, the first that applies in
   * the order epg id, numeric id, name; a channel no rule applies to is
   * unmatched.
   */
  lemma ResolveMeaning(streams: seq<LiveStream>, ch: XChannel)
    ensures Resolve(ch, IndicesOf(streams)).rule == ByEpgId <==> EpgIdMatch(streams, ch)
    ensures Resolve(ch, IndicesOf(streams)).rule == ByNumericId <==> !EpgIdMatch(streams, ch) && NumericMatch(streams, ch)
    ensures Resolve(ch, IndicesOf(streams)).rule == ByName <==>
              !EpgIdMatch(streams, ch) && !NumericMatch(streams, ch) && NameMatch(streams, ch)
    ensures Resolve(ch, IndicesOf(streams)).rule == Unmatched <==>
              !EpgIdMatch(streams, ch) && !NumericMatch(streams, ch) && !NameMatch(streams, ch)
  {
    EpgRuleMeaning(streams, ch);
    NumericRuleMeaning(streams, ch);
    NameRuleMeaning(streams, ch);
  }

  lemma EpgRuleMeaning(streams: seq<LiveStream>, ch: XChannel)
    ensures Lookup(Index(streams, EpgIdKey), ch.id) != [] <==> EpgIdMatch(streams, ch)
  {
    var m := Index(streams, EpgIdKey);
    if Lookup(m, ch.id) != [] {
      IndexMeaning(streams, EpgIdKey, ch.id, Lookup(m, ch.id)[0]);
    }
    if EpgIdMatch(streams, ch) {
      var j :| 0 <= j < |streams| && streams[j].id > 0 && streams[j].epgChannelId != [] && streams[j].epgChannelId == ch.id;
      IndexMeaning(streams, EpgIdKey, ch.id, streams[j].id);
    }
  }

  lemma NumericRuleMeaning(streams: seq<LiveStream>, ch: XChannel)
    ensures (NumericStreamId(ch.id).Some? && NumericStreamId(ch.id).value in KnownIds(streams)) <==> NumericMatch(streams, ch)
  {
    var n := NumericStreamId(ch.id);
    if n.Some? {
      KnownIdsMeaning(streams, n.value);
    }
  }

  lemma NameRuleMeaning(streams: seq<LiveStream>, ch: XChannel)
    ensures (NameLookupKey(ch.displayName) != [] && Lookup(Index(streams, NameKey), NameLookupKey(ch.displayName)) != [])
            <==> NameMatch(streams, ch)
  {
    var key := NameLookupKey(ch.displayName);
    var m := Index(streams, NameKey);
    if Lookup(m, key) != [] {
      IndexMeaning(streams, NameKey, key, Lookup(m, key)[0]);
    }
    if NameMatch(streams, ch) {
      var j :| 0 <= j < |streams| && streams[j].id > 0 && KeyOf(NameKey, streams[j]) == Some(key);
      IndexMeaning(streams, NameKey, key, streams[j].id);
    }
  }

  /**
   * The ids a channel is resolved to are the decimal texts of exactly the
   * streams the winning rule selects.
   */
  lemma ResolvedIds(streams: seq<LiveStream>, ch: XChannel, x: string)
    ensures Resolve(ch, IndicesOf(streams)).rule == ByEpgId ==>
              (x in Resolve(ch, IndicesOf(streams)).ids <==>
               exists id :: FiledUnder(streams, EpgIdKey, ch.id, id) && x == IntToString(id))
    ensures Resolve(ch, IndicesOf(streams)).rule == ByNumericId ==>
              Resolve(ch, IndicesOf(streams)).ids == [IntToString(NumericStreamId(ch.id).value)]
    ensures Resolve(ch, IndicesOf(streams)).rule == ByName ==>
              (x in Resolve(ch, IndicesOf(streams)).ids <==>
               exists id :: FiledUnder(streams, NameKey, NameLookupKey(ch.displayName), id) && x == IntToString(id))
  {
    var ix := IndicesOf(streams);
    var res := Resolve(ch, ix);
    if res.rule == ByEpgId {
      IdsOfIndex(streams, EpgIdKey, ch.id, x);
    } else if res.rule == ByName {
      IdsOfIndex(streams, NameKey, NameLookupKey(ch.displayName), x);
    }
  }

  lemma IdsOfIndex(streams: seq<LiveStream>, kind: IndexKind, k: string, x: string)
    requires k in Index(streams, kind)
    ensures x in IdStrings(Index(streams, kind)[k]) <==> exists id :: FiledUnder(streams, kind, k, id) && x == IntToString(id)
  {
    var ids := Index(streams, kind)[k];
    if x in IdStrings(ids) {
      var j :| 0 <= j < |ids| && IdStrings(ids)[j] == x;
      IndexMeaning(streams, kind, k, ids[j]);
    }
    if exists id :: FiledUnder(streams, kind, k, id) && x == IntToString(id) {
      var id :| FiledUnder(streams, kind, k, id) && x == IntToString(id);
      IndexMeaning(streams, kind, k, id);
      var j :| 0 <= j < |ids| && ids[j] == id;
      assert IdStrings(ids)[j] == x;
    }
  }

  /** `strtol` reads back the decimal text of a positive id. */
  lemma StrtolOfIdString(id: int)
    requires 0 < id <= LongMax
    ensures StrtolWhole(IntToString(id)) == Some(id)
  {
    var s := IntToString(id);
    assert s == NatToString(id);
    assert !IsSpace(s[0]);
    assert SkipSpaces(s, 0) == 0;
    assert !(s[0] == '-' || s[0] == '+');
    DigitRunAt(s, 0, s);
    assert s[0..|s|] == s;
    DigitsValueOfNatToString(id);
  }

  /**
   * A channel whose XMLTV id is the decimal text of a stream's id resolves
   * to that stream when no `epg_channel_id` claims it first.
   */
  lemma NumericIdResolves(streams: seq<LiveStream>, ch: XChannel, j: nat)
    requires j < |streams| && 0 < streams[j].id < 0x8000_0000
    requires ch.id == IntToString(streams[j].id) && !EpgIdMatch(streams, ch)
    ensures Resolve(ch, IndicesOf(streams)) == Resolution(ByNumericId, [ch.id])
  {
    var id := streams[j].id;
    NumericIdValue(id, ch.id);
    EpgRuleMeaning(streams, ch);
    KnownIdsMeaning(streams, id);
    ResolveNumeric(ch, IndicesOf(streams), id);
  }

  lemma NumericIdValue(id: int, s: string)
    requires 0 < id < 0x8000_0000 && s == IntToString(id)
    ensures NumericStreamId(s) == Some(id)
  {
    StrtolOfIdString(id);
    WrapInt32Identity(id);
  }

  /** The numeric rule applies when no `epg_channel_id` claims the channel and its id is a known stream. */
  lemma ResolveNumeric(ch: XChannel, ix: Indices, n: int)
    requires forall k :: k in ix.byEpgId ==> ix.byEpgId[k] != []
    requires forall k :: k in ix.byName ==> ix.byName[k] != []
    requires Lookup(ix.byEpgId, ch.id) == [] && NumericStreamId(ch.id) == Some(n) && n in ix.known
    ensures Resolve(ch, ix) == Resolution(ByNumericId, [IntToString(n)])
  {
  }

  // ---------------------------------------------------------------------------
  // First pass: channels
  // ---------------------------------------------------------------------------

  /** `epgMap` and `xmltvIdToMappedIds`. */
  datatype Pass = Pass(epgMap: map<string, ChannelEpg>, mapped: map<string, seq<string>>)

  const EmptyEpg := ChannelEpg([], [], [], map[])

  /** `epgMap[mappedId]` with its empty id, name and icon filled from the channel. */
  function Filled(m: map<string, ChannelEpg>, k: string, ch: XChannel): ChannelEpg {
    var t := if k in m then m[k] else EmptyEpg;
    ChannelEpg(
      if t.id == [] then k else t.id,
      if t.displayName == [] then ch.displayName else t.displayName,
      if t.iconPath == [] then ch.icon else t.iconPath,
      t.entries)
  }

  /** The loop over `mappedIds` for a matched channel. */
  function FillTargets(m: map<string, ChannelEpg>, ids: seq<string>, ch: XChannel): map<string, ChannelEpg>
    decreases |ids|
  {
    if ids == [] then m
    else
      var m' := FillTargets(m, ids[..|ids| - 1], ch);
      var k := ids[|ids| - 1];
      m'[k := Filled(m', k, ch)]
  }

  /**
   * Every id of the list is filled in once and nothing else changes: an
   * existing channel keeps its non-empty fields and its entries.
   */
  lemma {:induction false} FillTargetsMeaning(m: map<string, ChannelEpg>, ids: seq<string>, ch: XChannel, k: string)
    ensures k in FillTargets(m, ids, ch) <==> k in m || k in ids
    ensures k in ids ==> FillTargets(m, ids, ch)[k] == Filled(m, k, ch)
    ensures k !in ids && k in m ==> FillTargets(m, ids, ch)[k] == m[k]
    decreases |ids|
  {
    if ids != [] {
      var init := ids[..|ids| - 1];
      FillTargetsMeaning(m, init, ch, k);
      var m' := FillTargets(m, init, ch);
      if k in init && k == ids[|ids| - 1] {
        assert Filled(m', k, ch) == Filled(m, k, ch);
      }
      assert k in ids <==> k in init || k == ids[|ids| - 1];
    }
  }

  /** One iteration of the channel loop, given the ids the channel resolved to. */
  function ChannelStep(p: Pass, ch: XChannel, ids: seq<string>): Pass {
    if ch.id == [] then p
    else if ids == [] then
      Pass(p.epgMap[ch.id := ChannelEpg(ch.id, ch.displayName, ch.icon, map[])], p.mapped[ch.id := [ch.id]])
    else
      Pass(FillTargets(p.epgMap, ids, ch), p.mapped[ch.id := ids])
  }

  /** The channel loop over a prefix of the channels. */
  function ChannelPass(channels: seq<XChannel>, ix: Indices): Pass
    requires forall k :: k in ix.byEpgId ==> ix.byEpgId[k] != []
    requires forall k :: k in ix.byName ==> ix.byName[k] != []
    decreases |channels|
  {
    if channels == [] then Pass(map[], map[])
    else
      var ch := channels[|channels| - 1];
      ChannelStep(ChannelPass(channels[..|channels| - 1], ix), ch, Resolve(ch, ix).ids)
  }

  /** An entry stored at its start time, with valid times. */
  predicate GoodEntries(entries: map<int, EpgEntry>) {
    forall t :: t in entries ==> entries[t].startTime == t && t != 0 && entries[t].endTime > t
  }

  /**
   * What both passes keep: every XMLTV id maps to a non-empty list of keys
   * that are all in `epgMap`; every channel's `id` is its key; every entry
   * sits at its own start time and has valid times.
   */
  predicate PassValid(p: Pass) {
    (forall x :: x in p.mapped ==> p.mapped[x] != [] && forall k :: k in p.mapped[x] ==> k in p.epgMap) &&
    (forall k :: k in p.epgMap ==> p.epgMap[k].id == k && GoodEntries(p.epgMap[k].entries))
  }

  lemma ChannelStepValid(p: Pass, ch: XChannel, ids: seq<string>)
    requires PassValid(p)
    ensures PassValid(ChannelStep(p, ch, ids))
  {
    if ch.id != [] && ids != [] {
      FillKeepsValid(p, ch.id, ids, ch);
    }
  }

  /** Filling the channels of a matched XMLTV id keeps the pass valid. */
  lemma FillKeepsValid(p: Pass, xid: string, ids: seq<string>, ch: XChannel)
    requires PassValid(p) && ids != []
    ensures PassValid(Pass(FillTargets(p.epgMap, ids, ch), p.mapped[xid := ids]))
  {
    var m := FillTargets(p.epgMap, ids, ch);
    forall k | k in m ensures m[k].id == k && GoodEntries(m[k].entries) {
      FillTargetsMeaning(p.epgMap, ids, ch, k);
    }
    forall x, k | x in p.mapped && k in p.mapped[x] ensures k in m {
      FillTargetsMeaning(p.epgMap, ids, ch, k);
    }
    forall k | k in ids ensures k in m {
      FillTargetsMeaning(p.epgMap, ids, ch, k);
    }
  }

  /**
   * After a channel's step, its XMLTV id maps to the ids it resolved to,
   * or, when unmatched, to itself, with a fresh channel under its own id.
   */
  lemma ChannelStepMaps(p: Pass, ch: XChannel, ids: seq<string>)
    requires ch.id != []
    ensures var q := ChannelStep(p, ch, ids);
            ch.id in q.mapped &&
            (ids != [] ==>
               (q.mapped[ch.id] == ids &&
                forall k :: k in ids ==> k in q.epgMap && q.epgMap[k] == Filled(p.epgMap, k, ch))) &&
            (ids == [] ==>
               (q.mapped[ch.id] == [ch.id] && q.epgMap[ch.id] == ChannelEpg(ch.id, ch.displayName, ch.icon, map[])))
  {
    if ids != [] {
      forall k | k in ids ensures k in FillTargets(p.epgMap, ids, ch) && FillTargets(p.epgMap, ids, ch)[k] == Filled(p.epgMap, k, ch) {
        FillTargetsMeaning(p.epgMap, ids, ch, k);
      }
    }
  }

  lemma {:induction false} ChannelPassValid(channels: seq<XChannel>, ix: Indices)
    requires forall k :: k in ix.byEpgId ==> ix.byEpgId[k] != []
    requires forall k :: k in ix.byName ==> ix.byName[k] != []
    ensures PassValid(ChannelPass(channels, ix))
    decreases |channels|
  {
    if channels != [] {
      ChannelPassValid(channels[..|channels| - 1], ix);
      var ch := channels[|channels| - 1];
      ChannelStepValid(ChannelPass(channels[..|channels| - 1], ix), ch, Resolve(ch, ix).ids);
    }
  }

  // ---------------------------------------------------------------------------
  // Second pass: programmes
  // ---------------------------------------------------------------------------

  /** The entry a programme becomes; times that do not read are 0. */
  function EntryOf(pr: XProgramme): EpgEntry {
    EpgEntry(pr.channel, XmltvInstant(pr.start), XmltvInstant(pr.stop), pr.title, pr.desc, pr.subTitle, pr.icon, pr.category)
  }

  predicate ValidTimes(e: EpgEntry) {
    e.startTime != 0 && e.endTime != 0 && e.endTime > e.startTime
  }

  /** `entries[entry.startTime] = entry` for every listed key present in `epgMap`. */
  function Store(m: map<string, ChannelEpg>, ids: seq<string>, e: EpgEntry): map<string, ChannelEpg>
    decreases |ids|
  {
    if ids == [] then m
    else
      var m' := Store(m, ids[..|ids| - 1], e);
      var k := ids[|ids| - 1];
      if k in m' then m'[k := m'[k].(entries := m'[k].entries[e.startTime := e])] else m'
  }

  /**
   * Storing files the entry at its start time under every listed channel,
   * replacing what was there, and changes nothing else.
   */
  lemma {:induction false} StoreMeaning(m: map<string, ChannelEpg>, ids: seq<string>, e: EpgEntry, k: string)
    ensures k in Store(m, ids, e) <==> k in m
    ensures k in m && k in ids ==> Store(m, ids, e)[k] == m[k].(entries := m[k].entries[e.startTime := e])
    ensures k in m && k !in ids ==> Store(m, ids, e)[k] == m[k]
    decreases |ids|
  {
    if ids != [] {
      StoreMeaning(m, ids[..|ids| - 1], e, k);
      assert k in ids <==> k in ids[..|ids| - 1] || k == ids[|ids| - 1];
    }
  }

  /** One iteration of the programme loop. */
  function ProgrammeStep(p: Pass, pr: XProgramme): Pass {
    if pr.channel == [] || MappedLookup(p.mapped, pr.channel) == [] then p
    else
      var e := EntryOf(pr);
      if !ValidTimes(e) then p
      else Pass(Store(p.epgMap, p.mapped[pr.channel], e), p.mapped)
  }

  function MappedLookup(m: map<string, seq<string>>, k: string): seq<string> {
    if k in m then m[k] else []
  }

  /** The programme loop over a prefix of the programmes. */
  function ProgrammePass(p: Pass, programmes: seq<XProgramme>): Pass
    decreases |programmes|
  {
    if programmes == [] then p
    else ProgrammeStep(ProgrammePass(p, programmes[..|programmes| - 1]), programmes[|programmes| - 1])
  }

  /** A programme whose times do not both read, or whose end is not after its start, is dropped. */
  lemma InvalidTimesDropped(p: Pass, pr: XProgramme)
    requires !ValidTimes(EntryOf(pr))
    ensures ProgrammeStep(p, pr) == p
  {
  }

  /**
   * A programme with valid times for a mapped XMLTV id lands at its start
   * time in every channel the id maps to, replacing an earlier programme
   * with the same start; every other channel is unchanged.
   */
  lemma ProgrammeLands(p: Pass, pr: XProgramme, k: string)
    requires PassValid(p)
    requires pr.channel != [] && pr.channel in p.mapped && ValidTimes(EntryOf(pr))
    ensures var q := ProgrammeStep(p, pr);
            q.mapped == p.mapped &&
            (k in q.epgMap <==> k in p.epgMap) &&
            (k in p.mapped[pr.channel] ==> q.epgMap[k].entries == p.epgMap[k].entries[EntryOf(pr).startTime := EntryOf(pr)]) &&
            (k in p.epgMap && k !in p.mapped[pr.channel] ==> q.epgMap[k] == p.epgMap[k])
  {
    StoreMeaning(p.epgMap, p.mapped[pr.channel], EntryOf(pr), k);
  }

  lemma ProgrammeStepValid(p: Pass, pr: XProgramme)
    requires PassValid(p)
    ensures PassValid(ProgrammeStep(p, pr))
  {
    var q := ProgrammeStep(p, pr);
    if q != p {
      var e := EntryOf(pr);
      var ids := p.mapped[pr.channel];
      forall k | k in q.epgMap ensures q.epgMap[k].id == k && GoodEntries(q.epgMap[k].entries) {
        StoreMeaning(p.epgMap, ids, e, k);
      }
      forall x, k | x in q.mapped && k in q.mapped[x] ensures k in q.epgMap {
        StoreMeaning(p.epgMap, ids, e, k);
      }
    }
  }

  lemma {:induction false} ProgrammePassValid(p: Pass, programmes: seq<XProgramme>)
    requires PassValid(p)
    ensures PassValid(ProgrammePass(p, programmes))
    decreases |programmes|
  {
    if programmes != [] {
      ProgrammePassValid(p, programmes[..|programmes| - 1]);
      ProgrammeStepValid(ProgrammePass(p, programmes[..|programmes| - 1]), programmes[|programmes| - 1]);
    }
  }

  // ---------------------------------------------------------------------------
  // Publishing
  // ---------------------------------------------------------------------------

  /** The channels copied into `channelEpgs`: those with at least one entry. */
  function Published(m: map<string, ChannelEpg>): map<string, ChannelEpg> {
    map k | k in m && m[k].entries != map[] :: m[k]
  }

  /** What `ParseXMLTV` produces from a document; `None` is a document that did not parse or has no `<tv>`. */
  function XmltvEpg(doc: Option<XmltvDoc>, streams: seq<LiveStream>): map<string, ChannelEpg> {
    if doc.None? then map[]
    else
      var ix := IndicesOf(streams);
      var p := ChannelPass(doc.value.channels, ix);
      Published(ProgrammePass(p, doc.value.programmes).epgMap)
  }

  /**
   * Every published channel is filed under its own id, has at least one
   * entry, and every entry sits at its start time with a non-zero start
   * and an end after it.
   */
  lemma PublishedWellFormed(doc: Option<XmltvDoc>, streams: seq<LiveStream>, k: string)
    requires k in XmltvEpg(doc, streams)
    ensures var c := XmltvEpg(doc, streams)[k];
            c.id == k && c.entries != map[] && GoodEntries(c.entries)
  {
    var ix := IndicesOf(streams);
    ChannelPassValid(doc.value.channels, ix);
    ProgrammePassValid(ChannelPass(doc.value.channels, ix), doc.value.programmes);
  }

  /**
   * `ParseXMLTV`: build the indices, run the channel pass and the
   * programme pass, then keep the channels with entries; the result is
   * true exactly when some channel is kept.
   */
  method ParseXmltv(doc: Option<XmltvDoc>, streams: seq<LiveStream>) returns (ok: bool, channelEpgs: map<string, ChannelEpg>)
    ensures channelEpgs == XmltvEpg(doc, streams)
    ensures ok <==> channelEpgs != map[]
  {
    if doc.None? {
      return false, map[];
    }
    var ix := BuildIndices(streams);
    var p := MapChannels(doc.value.channels, ix);
    var epgMap := AddProgrammes(p, doc.value.programmes);
    channelEpgs := Published(epgMap);
    ok := channelEpgs != map[];
  }

  /** The first pass: the loop over `<channel>` elements. */
  method MapChannels(channels: seq<XChannel>, ix: Indices) returns (p: Pass)
    requires forall k :: k in ix.byEpgId ==> ix.byEpgId[k] != []
    requires forall k :: k in ix.byName ==> ix.byName[k] != []
    ensures p == ChannelPass(channels, ix)
  {
    var epgMap: map<string, ChannelEpg> := map[];
    var mapped: map<string, seq<string>> := map[];
    var i := 0;
    while i < |channels|
      invariant 0 <= i <= |channels|
      invariant Pass(epgMap, mapped) == ChannelPass(channels[..i], ix)
    {
      assert channels[..i + 1][..i] == channels[..i];
      var ch := channels[i];
      if ch.id != [] {
        var res := Resolve(ch, ix);
        if res.ids == [] {
          epgMap := epgMap[ch.id := ChannelEpg(ch.id, ch.displayName, ch.icon, map[])];
          mapped := mapped[ch.id := [ch.id]];
        } else {
          mapped := mapped[ch.id := res.ids];
          epgMap := FillMapped(epgMap, res.ids, ch);
        }
      }
      i := i + 1;
    }
    assert channels[..i] == channels;
    p := Pass(epgMap, mapped);
  }

  /** The second pass: the loop over `<programme>` elements. */
  method AddProgrammes(p: Pass, programmes: seq<XProgramme>) returns (epgMap: map<string, ChannelEpg>)
    ensures epgMap == ProgrammePass(p, programmes).epgMap
  {
    epgMap := p.epgMap;
    var mapped := p.mapped;
    var i := 0;
    while i < |programmes|
      invariant 0 <= i <= |programmes|
      invariant Pass(epgMap, mapped) == ProgrammePass(p, programmes[..i])
    {
      assert programmes[..i + 1][..i] == programmes[..i];
      var pr := programmes[i];
      if pr.channel != [] && pr.channel in mapped && mapped[pr.channel] != [] {
        var e := EntryOf(pr);
        if ValidTimes(e) {
          epgMap := StoreEntry(epgMap, mapped[pr.channel], e);
        }
      }
      i := i + 1;
    }
    assert programmes[..i] == programmes;
  }

  /** The inner loop of the channel pass. */
  method FillMapped(m: map<string, ChannelEpg>, ids: seq<string>, ch: XChannel) returns (r: map<string, ChannelEpg>)
    ensures r == FillTargets(m, ids, ch)
  {
    r := m;
    var i := 0;
    while i < |ids|
      invariant 0 <= i <= |ids|
      invariant r == FillTargets(m, ids[..i], ch)
    {
      assert ids[..i + 1][..i] == ids[..i];
      var k := ids[i];
      var target := if k in r then r[k] else EmptyEpg;
      if target.id == [] {
        target := target.(id := k);
      }
      if target.displayName == [] {
        target := target.(displayName := ch.displayName);
      }
      if target.iconPath == [] {
        target := target.(iconPath := ch.icon);
      }
      r := r[k := target];
      i := i + 1;
    }
    assert ids[..i] == ids;
  }

  /** The inner loop of the programme pass. */
  method StoreEntry(m: map<string, ChannelEpg>, ids: seq<string>, e: EpgEntry) returns (r: map<string, ChannelEpg>)
    ensures r == Store(m, ids, e)
  {
    r := m;
    var i := 0;
    while i < |ids|
      invariant 0 <= i <= |ids|
      invariant r == Store(m, ids[..i], e)
    {
      assert ids[..i + 1][..i] == ids[..i];
      var k := ids[i];
      if k in r {
        r := r[k := r[k].(entries := r[k].entries[e.startTime := e])];
      }
      i := i + 1;
    }
    assert ids[..i] == ids;
  }

  /**
   * An unmatched channel is kept under its own XMLTV id and still collects
   * its programmes, so it is published once one of them has valid times.
   */
  lemma UnmatchedChannelGetsProgrammes(p: Pass, ch: XChannel, ix: Indices, pr: XProgramme)
    requires forall k :: k in ix.byEpgId ==> ix.byEpgId[k] != []
    requires forall k :: k in ix.byName ==> ix.byName[k] != []
    requires PassValid(p)
    requires ch.id != [] && Resolve(ch, ix).rule == Unmatched
    requires pr.channel == ch.id && ValidTimes(EntryOf(pr))
    ensures var q := ProgrammeStep(ChannelStep(p, ch, Resolve(ch, ix).ids), pr);
            ch.id in q.epgMap && q.epgMap[ch.id].entries == map[EntryOf(pr).startTime := EntryOf(pr)]
  {
    var ids := Resolve(ch, ix).ids;
    ChannelStepMaps(p, ch, ids);
    ChannelStepValid(p, ch, ids);
    ProgrammeLands(ChannelStep(p, ch, ids), pr, ch.id);
  }
}

/**
 * The channel half of the worker loop in addon.cpp: how a channel name is
 * cleaned, which streams are fetched (all at once or category by
 * category), and how the fetched streams become the published channel
 * list, uid map, group members and group order, together with the records
 * handed to `SaveCache`.
 */
module ChannelBuild {
  import opened Text
  import opened Catalog
  import opened Snapshots
  import opened Patterns
  import opened EpgNames
  import CacheCodec

  // ---------------------------------------------------------------------------
  // SanitizeChannelName
  // ---------------------------------------------------------------------------

  /** Four hex digits start at `i`. */
  predicate Hex4At(s: string, i: nat)
    requires i + 4 <= |s|
  {
    HexVal(s[i]) >= 0 && HexVal(s[i + 1]) >= 0 && HexVal(s[i + 2]) >= 0 && HexVal(s[i + 3]) >= 0
  }

  /**
   * The text from `i` on with every `\uXXXX` and every `uXXXX` left over
   * from a provider's JSON escaping removed, scanning left to right.
   */
  function StripFrom(s: string, i: nat): (r: string)
    requires i <= |s|
    ensures |r| <= |s| - i
    decreases |s| - i
  {
    if i >= |s| then []
    else if s[i] == '\\' && i + 5 < |s| && s[i + 1] == 'u' && Hex4At(s, i + 2) then StripFrom(s, i + 6)
    else if s[i] == 'u' && i + 4 < |s| && Hex4At(s, i + 1) then StripFrom(s, i + 5)
    else [s[i]] + StripFrom(s, i + 1)
  }

  function StripEscapes(s: string): string {
    StripFrom(s, 0)
  }

  /** The escape-stripping loop of `SanitizeChannelName`. */
  method StripUnicodeEscapes(s: string) returns (out: string)
    ensures out == StripEscapes(s)
  {
    out := [];
    var i := 0;
    while i < |s|
      invariant i <= |s|
      invariant out + StripFrom(s, i) == StripFrom(s, 0)
    {
      if s[i] == '\\' && i + 5 < |s| && s[i + 1] == 'u' && Hex4At(s, i + 2) {
        i := i + 6;
        continue;
      }
      if s[i] == 'u' && i + 4 < |s| && Hex4At(s, i + 1) {
        i := i + 5;
        continue;
      }
      out := out + [s[i]];
      i := i + 1;
    }
  }

  /** Text without `u` has nothing to strip. */
  lemma {:induction false} StripWithoutU(s: string, i: nat)
    requires 'u' !in s && i <= |s|
    ensures StripFrom(s, i) == s[i..]
    decreases |s| - i
  {
    if i < |s| {
      assert s[i] in s;
      StripWithoutU(s, i + 1);
      assert s[i..] == [s[i]] + s[i + 1..];
    }
  }

  /** A `\uXXXX` or `uXXXX` is removed, and the scan goes on after it. */
  lemma EscapeRemoved(a: string, e: string, b: string)
    requires |e| == 6 && e[0] == '\\' && e[1] == 'u' && Hex4At(e, 2)
    ensures StripFrom(a + e + b, |a|) == StripFrom(a + e + b, |a| + 6)
  {
    var s := a + e + b;
    assert s[|a|..|a| + 6] == e;
    assert s[|a|] == e[0] && s[|a| + 1] == e[1];
    assert s[|a| + 2] == e[2] && s[|a| + 3] == e[3] && s[|a| + 4] == e[4] && s[|a| + 5] == e[5];
  }

  /**
   * The name a channel is published under: trimmed, five entities decoded,
   * escape text removed, white space collapsed, trimmed again.
   */
  function Sanitized(name: string): string {
    Trimmed(Collapse(StripEscapes(DecodeEntities(Trimmed(name))), false))
  }

  /** `SanitizeChannelName`. */
  method SanitizeChannelName(name: string) returns (r: string)
    ensures r == Sanitized(name)
  {
    var s := Trim(name);
    var a := ReplaceAll(s, "&amp;", "&");
    var b := ReplaceAll(a, "&quot;", "\"");
    var c := ReplaceAll(b, "&#039;", "'");
    var d := ReplaceAll(c, "&lt;", "<");
    var e := ReplaceAll(d, "&gt;", ">");
    assert e == DecodeEntities(s);
    var out := StripUnicodeEscapes(e);
    var collapsed := CollapseWhitespace(out);
    r := Trim(collapsed);
  }

  /** A published name has no white space at either end and no run of white space. */
  lemma SanitizedShape(name: string)
    ensures var r := Sanitized(name);
            (r == [] || (!IsSpace(r[0]) && !IsSpace(r[|r| - 1]))) && Collapsed(r)
  {
    CollapsedTrimmed(StripEscapes(DecodeEntities(Trimmed(name))));
  }

  lemma CollapsedTrimmed(y: string)
    ensures Collapsed(Trimmed(Collapse(y, false)))
  {
    var x := Collapse(y, false);
    CollapseIsCollapsed(y, false);
    TrimmedSlice(x);
    CollapsedSlice(x, SpacePrefixLen(x), SpacePrefixLen(x) + |Trimmed(x)|, Trimmed(x));
  }

  /** A name that is already clean is published as it is. */
  lemma SanitizedClean(n: string)
    requires n == [] || (!IsSpace(n[0]) && !IsSpace(n[|n| - 1]))
    requires Collapsed(n) && '&' !in n && 'u' !in n
    ensures Sanitized(n) == n
  {
    TrimmedUnchanged(n);
    DecodeUnchanged(n);
    StripWithoutU(n, 0);
    if n != [] {
      CollapseUnchanged(n, false);
    }
    TrimmedUnchanged(n);
  }

  // ---------------------------------------------------------------------------
  // Which streams are fetched
  // ---------------------------------------------------------------------------

  /** The category filter applies: there are category patterns and the mode is include or exclude. */
  predicate FilterActive(categoryPatterns: seq<string>, modeLower: string) {
    categoryPatterns != [] && (modeLower == "include" || modeLower == "exclude")
  }

  /** `wantsUncategorized`: the filter applies and its patterns match `"Uncategorized"`. */
  predicate WantsUncategorized(categoryPatterns: seq<string>, modeLower: string) {
    FilterActive(categoryPatterns, modeLower) && FilteredOut(categoryPatterns, "Uncategorized")
  }

  /** A category whose streams the filter keeps: matched under include, unmatched under exclude. */
  predicate KeepsCategory(c: LiveCategory, categoryPatterns: seq<string>, modeLower: string) {
    Usable(c) &&
    var matched := FilteredOut(categoryPatterns, c.name);
    (modeLower == "include" && matched) || (modeLower == "exclude" && !matched)
  }

  /** `keepCatIds`: the ids of the kept categories, in reply order. */
  function KeepCatIds(categories: seq<LiveCategory>, categoryPatterns: seq<string>, modeLower: string): (r: seq<int>)
    ensures |r| <= |categories|
    decreases |categories|
  {
    if categories == [] then []
    else
      var n := |categories|;
      var c := categories[n - 1];
      KeepCatIds(categories[..n - 1], categoryPatterns, modeLower) +
        (if KeepsCategory(c, categoryPatterns, modeLower) then [c.id] else [])
  }

  /** Category `c` has id `id` and passes the category filter. */
  predicate KeptWithId(c: LiveCategory, categoryPatterns: seq<string>, modeLower: string, id: int) {
    c.id == id && KeepsCategory(c, categoryPatterns, modeLower)
  }

  /** The kept ids are exactly the ids of the kept categories. */
  lemma {:induction false} KeepCatIdsMeaning(categories: seq<LiveCategory>, categoryPatterns: seq<string>, modeLower: string, id: int)
    ensures id in KeepCatIds(categories, categoryPatterns, modeLower) <==>
            exists k :: 0 <= k < |categories| && KeptWithId(categories[k], categoryPatterns, modeLower, id)
    decreases |categories|
  {
    if categories != [] {
      var n := |categories|;
      var init := categories[..n - 1];
      KeepCatIdsMeaning(init, categoryPatterns, modeLower, id);
      if exists k :: 0 <= k < n - 1 && KeptWithId(init[k], categoryPatterns, modeLower, id) {
        var k :| 0 <= k < n - 1 && KeptWithId(init[k], categoryPatterns, modeLower, id);
        assert categories[k] == init[k];
      }
      if exists k :: 0 <= k < n && KeptWithId(categories[k], categoryPatterns, modeLower, id) {
        var k :| 0 <= k < n && KeptWithId(categories[k], categoryPatterns, modeLower, id);
        if k < n - 1 {
          assert init[k] == categories[k];
        }
      }
    }
  }

  /** How the streams are fetched. */
  datatype FetchPlan = AllStreams | PerCategory(ids: seq<int>)

  /**
   * The fetch strategy: everything in one call when the category filter
   * is off, is `"all"` or wants uncategorised streams; otherwise category
   * by category when few categories are kept (at most 20, or at most a
   * quarter of them), else everything in one call.
   */
  function PlanFetch(categories: seq<LiveCategory>, categoryPatterns: seq<string>, modeLower: string): (plan: FetchPlan)
    ensures plan.PerCategory? ==> categoryPatterns != [] && modeLower != "all" &&
                                  !WantsUncategorized(categoryPatterns, modeLower)
    ensures plan.PerCategory? ==> plan.ids == KeepCatIds(categories, categoryPatterns, modeLower)
    ensures plan.PerCategory? ==> |plan.ids| <= 20 || 4 * |plan.ids| <= |categories|
  {
    if categoryPatterns == [] || modeLower == "all" || WantsUncategorized(categoryPatterns, modeLower) then
      AllStreams
    else
      var keep := KeepCatIds(categories, categoryPatterns, modeLower);
      var usePerCategory := |keep| <= 20 || (|categories| > 0 && |keep| * 4 <= |categories|);
      if usePerCategory then PerCategory(keep) else AllStreams
  }

  /** A category filter in force fetches everything in one call exactly when it keeps many categories. */
  lemma PlanFetchChoice(categories: seq<LiveCategory>, categoryPatterns: seq<string>, modeLower: string)
    requires FilterActive(categoryPatterns, modeLower) && !WantsUncategorized(categoryPatterns, modeLower)
    ensures var keep := KeepCatIds(categories, categoryPatterns, modeLower);
            PlanFetch(categories, categoryPatterns, modeLower).AllStreams? <==>
              (|keep| > 20 && 4 * |keep| > |categories|)
  {
  }

  /** One `FetchLiveStreams` call: its result and the streams it filled in. */
  datatype StreamsReply = StreamsReply(res: FetchResult, streams: seq<LiveStream>)

  /** What the fetch step leaves for the rest of the cycle. */
  datatype Fetched =
    | Got(streams: seq<LiveStream>)
    | Failed(details: string)
      /** `failLoad` was called, but the cycle goes on to build from no streams. */
    | FailedAndBuilt(details: string)

  /** One of the per-category calls from the `idx`-th on fails. */
  predicate SomeCallFails(replies: seq<StreamsReply>, idx: nat) {
    exists k :: idx <= k < |replies| && !replies[k].res.ok
  }

  /**
   * The per-category loop from the `idx`-th id: each reply is appended; the
   * first failure abandons the per-category streams and falls back to one
   * call for everything (`all` is that call's reply).
   */
  function FetchFrom(ids: seq<int>, replies: seq<StreamsReply>, all: StreamsReply, acc: seq<LiveStream>, idx: nat): (r: Fetched)
    requires |replies| == |ids| && idx <= |ids|
    ensures !r.Failed?
    ensures SomeCallFails(replies, idx) && all.res.ok ==> r == Got(all.streams)
    ensures r.FailedAndBuilt? <==> SomeCallFails(replies, idx) && !all.res.ok
    decreases |ids| - idx
  {
    if idx == |ids| then Got(acc)
    else if !replies[idx].res.ok then
      if all.res.ok then Got(all.streams) else FailedAndBuilt(all.res.details)
    else FetchFrom(ids, replies, all, acc + replies[idx].streams, idx + 1)
  }

  /**
   * The fetch step as written, given the reply to the call for everything
   * and the replies to the per-category calls: when the fallback call also
   * fails, `failLoad` runs and then `goto fetched` carries on to the build.
   */
  function FetchStreams(plan: FetchPlan, all: StreamsReply, replies: seq<StreamsReply>): (r: Fetched)
    requires plan.PerCategory? ==> |replies| == |plan.ids|
    ensures r.Failed? <==> plan.AllStreams? && !all.res.ok
    ensures r.FailedAndBuilt? <==> plan.PerCategory? && SomeCallFails(replies, 0) && !all.res.ok
  {
    match plan
    case AllStreams => if all.res.ok then Got(all.streams) else Failed(all.res.details)
    case PerCategory(ids) => FetchFrom(ids, replies, all, [], 0)
  }

  /** The evidently intended fetch step: a failed fallback call ends the cycle like every other failure. */
  function FetchStreamsCorrected(plan: FetchPlan, all: StreamsReply, replies: seq<StreamsReply>): (r: Fetched)
    requires plan.PerCategory? ==> |replies| == |plan.ids|
    ensures !r.FailedAndBuilt?
    ensures r.Failed? <==> FetchStreams(plan, all, replies).Failed? || FetchStreams(plan, all, replies).FailedAndBuilt?
    ensures r.Got? ==> r == FetchStreams(plan, all, replies)
  {
    match FetchStreams(plan, all, replies)
    case FailedAndBuilt(d) => Failed(d)
    case other => other
  }

  /** Per category, the streams are the replies laid end to end when every call succeeds. */
  lemma {:induction false} FetchFromAllOk(ids: seq<int>, replies: seq<StreamsReply>, all: StreamsReply, acc: seq<LiveStream>, idx: nat)
    requires |replies| == |ids| && idx <= |ids|
    requires forall k :: idx <= k < |ids| ==> replies[k].res.ok
    ensures FetchFrom(ids, replies, all, acc, idx) == Got(acc + Concat(replies[idx..]))
    decreases |ids| - idx
  {
    if idx == |ids| {
      assert replies[idx..] == [];
    } else {
      assert replies[idx..] == [replies[idx]] + replies[idx + 1..];
      FetchFromAllOk(ids, replies, all, acc + replies[idx].streams, idx + 1);
    }
  }

  /** The streams of a list of replies, in order. */
  function Concat(replies: seq<StreamsReply>): seq<LiveStream>
    decreases |replies|
  {
    if replies == [] then [] else replies[0].streams + Concat(replies[1..])
  }

  /**
   * The cycle goes on to build with no streams after both a per-category
   * call and the fallback call failed; `FetchLiveStreams` empties its
   * output before it fails.
   */
  lemma FailedFallbackBuilds(ids: seq<int>, replies: seq<StreamsReply>, all: StreamsReply)
    requires |replies| == |ids| && |ids| > 0
    requires !replies[0].res.ok && !all.res.ok
    ensures FetchStreams(PerCategory(ids), all, replies) == FailedAndBuilt(all.res.details)
    ensures FetchStreamsCorrected(PerCategory(ids), all, replies) == Failed(all.res.details)
  {
  }

  // ---------------------------------------------------------------------------
  // The build loop
  // ---------------------------------------------------------------------------

  /** The worker's copy of the filter settings. */
  datatype BuildConfig = BuildConfig(
    patterns: seq<string>,
    categoryPatterns: seq<string>,
    modeLower: string,
    numberingLower: string,
    filterSeparators: bool)

  /** The name a stream's category is filtered under: its table name, or `"Uncategorized"`. */
  function CategoryNameForFilter(table: seq<LiveCategory>, categoryId: int): string {
    var name := OrElse(NameOf(table, categoryId), []);
    if name == [] then "Uncategorized" else name
  }

  /** The category filter lets the stream through. */
  predicate CategoryPasses(s: LiveStream, table: seq<LiveCategory>, cfg: BuildConfig) {
    !FilterActive(cfg.categoryPatterns, cfg.modeLower) ||
    var matched := FilteredOut(cfg.categoryPatterns, CategoryNameForFilter(table, s.categoryId));
    (cfg.modeLower == "include" && matched) || (cfg.modeLower == "exclude" && !matched)
  }

  /**
   * A stream that becomes a channel: a positive id and a name, not a
   * separator row when those are filtered, through the category filter
   * and not matched by the channel-name patterns.
   */
  predicate Admitted(s: LiveStream, table: seq<LiveCategory>, cfg: BuildConfig) {
    s.id > 0 && s.name != [] &&
    !(cfg.filterSeparators && IsSeparatorName(s.name)) &&
    CategoryPasses(s, table, cfg) &&
    !FilteredOut(cfg.patterns, s.name)
  }

  /** The admitted streams, in fetch order. */
  function Kept(streams: seq<LiveStream>, table: seq<LiveCategory>, cfg: BuildConfig): (r: seq<LiveStream>)
    ensures |r| <= |streams|
    ensures forall i :: 0 <= i < |r| ==> Admitted(r[i], table, cfg)
    decreases |streams|
  {
    if streams == [] then []
    else
      var n := |streams|;
      Kept(streams[..n - 1], table, cfg) + (if Admitted(streams[n - 1], table, cfg) then [streams[n - 1]] else [])
  }

  /** Every admitted stream is kept. */
  lemma {:induction false} AdmittedIsKept(streams: seq<LiveStream>, table: seq<LiveCategory>, cfg: BuildConfig, i: nat)
    requires i < |streams| && Admitted(streams[i], table, cfg)
    ensures streams[i] in Kept(streams, table, cfg)
    decreases |streams|
  {
    var n := |streams|;
    if i < n - 1 {
      var init := streams[..n - 1];
      assert init[i] == streams[i];
      AdmittedIsKept(init, table, cfg, i);
    }
  }

  /** Every kept stream is one of the fetched streams. */
  lemma {:induction false} KeptIsFetched(streams: seq<LiveStream>, table: seq<LiveCategory>, cfg: BuildConfig, s: LiveStream)
    requires s in Kept(streams, table, cfg)
    ensures s in streams
    decreases |streams|
  {
    var n := |streams|;
    var init := streams[..n - 1];
    if s in Kept(init, table, cfg) {
      KeptIsFetched(init, table, cfg, s);
    }
  }

  /** The number of the kept stream at 1-based position `position`. */
  function NumberFor(s: LiveStream, position: int, cfg: BuildConfig): int {
    if cfg.numberingLower == "provider" && s.number > 0 then s.number else position
  }

  /** Icons are set only for lists of at most 800 streams. */
  const IconEnableThreshold: nat := 800

  /** The channel for a kept stream, given its cleaned name and its number. */
  function ChannelFor(s: LiveStream, name: string, number: int, allowIcons: bool): PvrChannel {
    PvrChannel(U32Of(s.id), name, number, if allowIcons && s.icon != [] then s.icon else [])
  }

  /** The names of the kept streams, each passed through `clean`. */
  function CleanNames(kept: seq<LiveStream>, clean: string -> string): (r: seq<string>)
    ensures |r| == |kept|
    ensures forall i :: 0 <= i < |kept| ==> r[i] == clean(kept[i].name)
  {
    seq(|kept|, i requires 0 <= i < |kept| => clean(kept[i].name))
  }

  /** The channels built from the kept streams: each numbered by its position unless the provider's number is used. */
  function BuiltChannels(kept: seq<LiveStream>, names: seq<string>, cfg: BuildConfig, allowIcons: bool): (r: seq<PvrChannel>)
    requires |names| == |kept|
    ensures |r| == |kept|
    ensures forall i :: 0 <= i < |kept| ==> r[i] == ChannelFor(kept[i], names[i], NumberFor(kept[i], i + 1, cfg), allowIcons)
  {
    seq(|kept|, i requires 0 <= i < |kept| => ChannelFor(kept[i], names[i], NumberFor(kept[i], i + 1, cfg), allowIcons))
  }

  /** The record for `SaveCache` of a kept stream. */
  function CacheRecordFor(s: LiveStream, name: string, number: int): CacheCodec.CacheChannel {
    CacheCodec.CacheChannel(U32Of(s.id), WrapInt32(s.categoryId), U32Of(number), name)
  }

  /** The records for `SaveCache`, one per channel. */
  function BuiltCache(kept: seq<LiveStream>, names: seq<string>, cfg: BuildConfig): (r: seq<CacheCodec.CacheChannel>)
    requires |names| == |kept|
    ensures |r| == |kept|
    ensures forall i :: 0 <= i < |kept| ==> r[i] == CacheRecordFor(kept[i], names[i], NumberFor(kept[i], i + 1, cfg))
  {
    seq(|kept|, i requires 0 <= i < |kept| => CacheRecordFor(kept[i], names[i], NumberFor(kept[i], i + 1, cfg)))
  }

  /** The category id of each kept stream, in order (the `catIds` list of the group loop). */
  function CategoryIds(kept: seq<LiveStream>): seq<int>
  {
    seq(|kept|, i requires 0 <= i < |kept| => kept[i].categoryId)
  }

  /** The pairs `uidToStreamId.emplace(uid, s.id)` is given. */
  function UidEntries(kept: seq<LiveStream>): (r: seq<(u32, int)>)
    ensures |r| == |kept|
    ensures forall i :: 0 <= i < |kept| ==> r[i] == (U32Of(kept[i].id), kept[i].id)
  {
    seq(|kept|, i requires 0 <= i < |kept| => (U32Of(kept[i].id), kept[i].id))
  }

  /** What one build publishes, and the records it hands to `SaveCache`. */
  datatype Built = Built(snapshot: Snapshot, cacheChannels: seq<CacheCodec.CacheChannel>)

  /** The result of the build loop and the group-order loop after it. */
  function BuildFrom(streams: seq<LiveStream>, categories: seq<LiveCategory>, cfg: BuildConfig): Built {
    var table := NameTable(categories);
    var kept := Kept(streams, table, cfg);
    var names := CleanNames(kept, Sanitized);
    var channels := BuiltChannels(kept, names, cfg, |streams| <= IconEnableThreshold);
    var members := GroupMembersOf(channels, CategoryIds(kept), table);
    Built(Snapshot(channels, UidMap(UidEntries(kept)), members, LiveGroupNames(categories, table, members)),
          BuiltCache(kept, names, cfg))
  }

  lemma KeptSnoc(streams: seq<LiveStream>, table: seq<LiveCategory>, cfg: BuildConfig, i: nat)
    requires i < |streams|
    ensures Kept(streams[..i + 1], table, cfg) ==
            Kept(streams[..i], table, cfg) + (if Admitted(streams[i], table, cfg) then [streams[i]] else [])
  {
    assert streams[..i + 1][..i] == streams[..i];
  }

  /** The per-stream records grow by one entry for a kept stream. */
  lemma BuiltSnoc(kept: seq<LiveStream>, names: seq<string>, s: LiveStream, name: string, cfg: BuildConfig, allowIcons: bool)
    requires |names| == |kept|
    ensures BuiltChannels(kept + [s], names + [name], cfg, allowIcons) ==
            BuiltChannels(kept, names, cfg, allowIcons) + [ChannelFor(s, name, NumberFor(s, |kept| + 1, cfg), allowIcons)]
    ensures BuiltCache(kept + [s], names + [name], cfg) ==
            BuiltCache(kept, names, cfg) + [CacheRecordFor(s, name, NumberFor(s, |kept| + 1, cfg))]
    ensures CategoryIds(kept + [s]) == CategoryIds(kept) + [s.categoryId]
    ensures UidEntries(kept + [s]) == UidEntries(kept) + [(U32Of(s.id), s.id)]
  {
  }

  /**
   * The channel-build loop: streams are checked in fetch order and each
   * kept one is numbered, published, indexed by uid, recorded for the
   * cache and added to its category's group.
   */
  method BuildChannels(streams: seq<LiveStream>, table: seq<LiveCategory>, cfg: BuildConfig)
    returns (channels: seq<PvrChannel>, uidToStreamId: map<u32, int>,
             groupMembers: map<string, seq<GroupMember>>, cacheChannels: seq<CacheCodec.CacheChannel>)
    ensures var kept := Kept(streams, table, cfg);
            var names := CleanNames(kept, Sanitized);
            channels == BuiltChannels(kept, names, cfg, |streams| <= IconEnableThreshold) &&
            uidToStreamId == UidMap(UidEntries(kept)) &&
            groupMembers == GroupMembersOf(channels, CategoryIds(kept), table) &&
            cacheChannels == BuiltCache(kept, names, cfg)
  {
    var allowIcons := |streams| <= IconEnableThreshold;
    channels, uidToStreamId, groupMembers, cacheChannels := [], map[], map[], [];
    var sequentialChannelNumber := 1;
    ghost var kept: seq<LiveStream> := [];
    ghost var names: seq<string> := [];
    var i := 0;
    while i < |streams|
      invariant i <= |streams| && kept == Kept(streams[..i], table, cfg)
      invariant names == CleanNames(kept, Sanitized)
      invariant sequentialChannelNumber == |kept| + 1
      invariant channels == BuiltChannels(kept, names, cfg, allowIcons)
      invariant uidToStreamId == UidMap(UidEntries(kept))
      invariant groupMembers == GroupMembersOf(channels, CategoryIds(kept), table)
      invariant cacheChannels == BuiltCache(kept, names, cfg)
    {
      var s := streams[i];
      KeptSnoc(streams, table, cfg, i);
      i := i + 1;
      if !Admitted(s, table, cfg) {
        continue;
      }
      var chName := SanitizeChannelName(s.name);
      var channelNumber := NumberFor(s, sequentialChannelNumber, cfg);
      var ch := PvrChannel(U32Of(s.id), chName, channelNumber, if allowIcons && s.icon != [] then s.icon else []);
      BuiltSnoc(kept, names, s, chName, cfg, allowIcons);
      CleanNamesSnoc(kept, s, Sanitized);
      UidMapSnoc(UidEntries(kept), (U32Of(s.id), s.id));
      GroupMembersSnoc(channels, CategoryIds(kept), table, ch, s.categoryId);
      channels := channels + [ch];
      if U32Of(s.id) !in uidToStreamId {
        uidToStreamId := uidToStreamId[U32Of(s.id) := s.id];
      }
      cacheChannels := cacheChannels + [CacheCodec.CacheChannel(U32Of(s.id), WrapInt32(s.categoryId), U32Of(channelNumber), chName)];
      names := names + [chName];
      var name := NameOf(table, s.categoryId);
      if name.Some? {
        groupMembers := groupMembers[name.value := MembersOf(groupMembers, name.value) + [GroupMember(U32Of(s.id), U32Of(channelNumber), 0)]];
      }
      kept := kept + [s];
      sequentialChannelNumber := sequentialChannelNumber + 1;
    }
    assert streams[..i] == streams;
  }

  lemma CleanNamesSnoc(kept: seq<LiveStream>, s: LiveStream, clean: string -> string)
    ensures CleanNames(kept + [s], clean) == CleanNames(kept, clean) + [clean(s.name)]
  {
  }

  lemma UidMapSnoc(entries: seq<(u32, int)>, e: (u32, int))
    ensures UidMap(entries + [e]) == if e.0 in UidMap(entries) then UidMap(entries) else UidMap(entries)[e.0 := e.1]
  {
    assert (entries + [e])[..|entries|] == entries;
  }

  lemma GroupMembersSnoc(channels: seq<PvrChannel>, catIds: seq<int>, table: seq<LiveCategory>, ch: PvrChannel, id: int)
    requires |channels| == |catIds|
    ensures var m := GroupMembersOf(channels, catIds, table);
            GroupMembersOf(channels + [ch], catIds + [id], table) ==
              match NameOf(table, id)
              case None => m
              case Some(name) => m[name := MembersOf(m, name) + [MemberFor(ch)]]
  {
    assert (channels + [ch])[..|channels|] == channels && (catIds + [id])[..|catIds|] == catIds;
  }

  /** The group-order loop: each category, in reply order, names its group if the group has members. */
  method CategoryGroupNames(categories: seq<LiveCategory>, table: seq<LiveCategory>, members: map<string, seq<GroupMember>>)
    returns (names: seq<string>)
    ensures names == LiveGroupNames(categories, table, members)
  {
    names := [];
    var i := 0;
    while i < |categories|
      invariant i <= |categories| && names == LiveGroupNames(categories[..i], table, members)
    {
      assert categories[..i + 1][..i] == categories[..i];
      var name := NameOf(table, categories[i].id);
      if name.Some? && name.value in members && members[name.value] != [] {
        names := names + [name.value];
      }
      i := i + 1;
    }
    assert categories[..i] == categories;
  }

  /** The table loop: `categoryIdToName` filled with `emplace` from the categories. */
  method BuildNameTable(categories: seq<LiveCategory>) returns (table: seq<LiveCategory>)
    ensures table == NameTable(categories)
  {
    table := [];
    var i := 0;
    while i < |categories|
      invariant i <= |categories| && table == NameTable(categories[..i])
    {
      assert categories[..i + 1][..i] == categories[..i];
      var c := categories[i];
      if c.id > 0 && c.name != [] && NameOf(table, c.id).None? {
        table := table + [c];
      }
      i := i + 1;
    }
    assert categories[..i] == categories;
  }

  /** The build step of the worker, from the fetched streams to what it publishes and caches. */
  method Build(streams: seq<LiveStream>, categories: seq<LiveCategory>, cfg: BuildConfig) returns (b: Built)
    ensures b == BuildFrom(streams, categories, cfg)
  {
    var table := BuildNameTable(categories);
    var channels, uidToStreamId, groupMembers, cacheChannels := BuildChannels(streams, table, cfg);
    var names := CategoryGroupNames(categories, table, groupMembers);
    b := Built(Snapshot(channels, uidToStreamId, groupMembers, names), cacheChannels);
  }

  // ---------------------------------------------------------------------------
  // What a build publishes
  // ---------------------------------------------------------------------------

  /**
   * Every published channel comes from an admitted stream, in fetch order,
   * with the stream's id as its uid, its cleaned name, and its 1-based
   * position among the kept streams as its number unless the provider's
   * positive number is used.
   */
  lemma PublishedChannel(streams: seq<LiveStream>, categories: seq<LiveCategory>, cfg: BuildConfig, i: nat)
    requires i < |BuildFrom(streams, categories, cfg).snapshot.channels|
    ensures var kept := Kept(streams, NameTable(categories), cfg);
            var ch := BuildFrom(streams, categories, cfg).snapshot.channels[i];
            i < |kept| && kept[i] in streams && Admitted(kept[i], NameTable(categories), cfg) &&
            ch.uniqueId == U32Of(kept[i].id) && ch.name == Sanitized(kept[i].name) &&
            ch.number == (if cfg.numberingLower == "provider" && kept[i].number > 0 then kept[i].number else i + 1)
  {
    var table := NameTable(categories);
    var kept := Kept(streams, table, cfg);
    var names := CleanNames(kept, Sanitized);
    var channels := BuiltChannels(kept, names, cfg, |streams| <= IconEnableThreshold);
    assert BuildFrom(streams, categories, cfg).snapshot.channels == channels;
    assert channels[i] == ChannelFor(kept[i], names[i], NumberFor(kept[i], i + 1, cfg), |streams| <= IconEnableThreshold);
    assert names[i] == Sanitized(kept[i].name);
    KeptIsFetched(streams, table, cfg, kept[i]);
  }

  /** Every stream the filters admit is published. */
  lemma AdmittedIsPublished(streams: seq<LiveStream>, categories: seq<LiveCategory>, cfg: BuildConfig, j: nat)
    requires j < |streams| && Admitted(streams[j], NameTable(categories), cfg)
    ensures exists i :: 0 <= i < |BuildFrom(streams, categories, cfg).snapshot.channels| &&
                        BuildFrom(streams, categories, cfg).snapshot.channels[i].uniqueId == U32Of(streams[j].id)
  {
    var kept := Kept(streams, NameTable(categories), cfg);
    AdmittedIsKept(streams, NameTable(categories), cfg, j);
    var i :| 0 <= i < |kept| && kept[i] == streams[j];
    assert BuildFrom(streams, categories, cfg).snapshot.channels[i].uniqueId == U32Of(streams[j].id);
  }

  /** The uid entries of the kept streams carry the uids of the built channels, position by position. */
  lemma UidEntriesMatch(kept: seq<LiveStream>, names: seq<string>, cfg: BuildConfig, allowIcons: bool)
    requires |names| == |kept|
    ensures var channels := BuiltChannels(kept, names, cfg, allowIcons);
            var entries := UidEntries(kept);
            forall k :: 0 <= k < |kept| ==> entries[k].0 == channels[k].uniqueId
  {
  }

  /** The uid map holds exactly the published uids. */
  lemma PublishedUids(streams: seq<LiveStream>, categories: seq<LiveCategory>, cfg: BuildConfig, u: u32)
    ensures var snap := BuildFrom(streams, categories, cfg).snapshot;
            u in snap.uidToStreamId <==> exists i :: 0 <= i < |snap.channels| && snap.channels[i].uniqueId == u
  {
    var kept := Kept(streams, NameTable(categories), cfg);
    var names := CleanNames(kept, Sanitized);
    var allowIcons := |streams| <= IconEnableThreshold;
    UidEntriesMatch(kept, names, cfg, allowIcons);
    UidsOf(BuiltChannels(kept, names, cfg, allowIcons), UidEntries(kept), u);
  }

  lemma UidsOf(channels: seq<PvrChannel>, entries: seq<(u32, int)>, u: u32)
    requires |channels| == |entries|
    requires forall k :: 0 <= k < |entries| ==> entries[k].0 == channels[k].uniqueId
    ensures u in UidMap(entries) <==> exists i :: 0 <= i < |channels| && channels[i].uniqueId == u
  {
  }

  /**
   * A published uid leads back to the stream id of the first published
   * channel carrying it: later streams whose id folds to the same uid do
   * not replace it.
   */
  lemma PublishedUidTarget(streams: seq<LiveStream>, categories: seq<LiveCategory>, cfg: BuildConfig, i: nat)
    requires var snap := BuildFrom(streams, categories, cfg).snapshot;
             i < |snap.channels| && forall k :: 0 <= k < i ==> snap.channels[k].uniqueId != snap.channels[i].uniqueId
    ensures var snap := BuildFrom(streams, categories, cfg).snapshot;
            var kept := Kept(streams, NameTable(categories), cfg);
            i < |kept| && snap.uidToStreamId[snap.channels[i].uniqueId] == kept[i].id
  {
    var kept := Kept(streams, NameTable(categories), cfg);
    var names := CleanNames(kept, Sanitized);
    var allowIcons := |streams| <= IconEnableThreshold;
    UidEntriesMatch(kept, names, cfg, allowIcons);
    UidMapFirstWins(UidEntries(kept), i);
  }
}

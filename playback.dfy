/**
 * Read-only decisions of the PVR client in addon.cpp: which EPG entries
 * `GetEPGForChannel` hands to Kodi, whether `IsEPGTagPlayable` lets a
 * programme be played from the archive, and how timers are numbered for
 * Kodi and told apart again by `DeleteTimer`.
 */
module Playback {
  import opened Text
  import opened Catalog
  import opened Xmltv

  // ---------------------------------------------------------------------------
  // GetEPGForChannel
  // ---------------------------------------------------------------------------

  /** The fields of a `PVREPGTag` the model keeps. */
  datatype EpgTag = EpgTag(broadcastId: u32, channelUid: u32, title: string, plot: string, startTime: int, endTime: int)

  /** An entry overlaps the window `[start, end]`: it neither ends before it nor starts after it. */
  predicate InWindow(e: EpgEntry, start: int, end: int) {
    !(e.endTime < start || e.startTime > end)
  }

  /** The tag for an entry: its start time doubles as the broadcast id. */
  function TagOf(e: EpgEntry, channelUid: int): EpgTag {
    EpgTag(U32Of(e.startTime), U32Of(channelUid), e.title, e.description, e.startTime, e.endTime)
  }

  /** The tags of the entries inside the window, in entry order. */
  function TagsInWindow(entries: seq<EpgEntry>, channelUid: int, start: int, end: int): (r: seq<EpgTag>)
    ensures |r| <= |entries|
    decreases |entries|
  {
    if entries == [] then []
    else
      var n := |entries| - 1;
      TagsInWindow(entries[..n], channelUid, start, end) +
        (if InWindow(entries[n], start, end) then [TagOf(entries[n], channelUid)] else [])
  }

  /** A tag is returned exactly for an entry that overlaps the window. */
  lemma {:induction false} TagsInWindowMeaning(entries: seq<EpgEntry>, channelUid: int, start: int, end: int, t: EpgTag)
    ensures t in TagsInWindow(entries, channelUid, start, end) <==>
            exists k :: 0 <= k < |entries| && InWindow(entries[k], start, end) && t == TagOf(entries[k], channelUid)
    decreases |entries|
  {
    if entries != [] {
      var n := |entries| - 1;
      var init := entries[..n];
      TagsInWindowMeaning(init, channelUid, start, end, t);
      if exists k :: 0 <= k < n && InWindow(init[k], start, end) && t == TagOf(init[k], channelUid) {
        var k :| 0 <= k < n && InWindow(init[k], start, end) && t == TagOf(init[k], channelUid);
        assert entries[k] == init[k];
      }
      if exists k :: 0 <= k < |entries| && InWindow(entries[k], start, end) && t == TagOf(entries[k], channelUid) {
        var k :| 0 <= k < |entries| && InWindow(entries[k], start, end) && t == TagOf(entries[k], channelUid);
        if k < n {
          assert init[k] == entries[k];
        }
      }
    }
  }

  /** The window loop of `GetEPGForChannel`. */
  method AddTagsInWindow(entries: seq<EpgEntry>, channelUid: int, start: int, end: int) returns (tags: seq<EpgTag>)
    ensures tags == TagsInWindow(entries, channelUid, start, end)
  {
    tags := [];
    var i := 0;
    while i < |entries|
      invariant i <= |entries| && tags == TagsInWindow(entries[..i], channelUid, start, end)
    {
      assert entries[..i + 1][..i] == entries[..i];
      var entry := entries[i];
      i := i + 1;
      if entry.endTime < start || entry.startTime > end {
        continue;
      }
      tags := tags + [TagOf(entry, channelUid)];
    }
    assert entries[..i] == entries;
  }

  /**
   * The entries `GetEPGForChannel` walks for a channel: the channel's uid
   * leads to a stream id, whose decimal text keys the EPG. No EPG yet, no
   * uid map yet, an unknown uid or a stream without EPG give none.
   */
  function EpgEntriesFor(epg: Option<map<string, seq<EpgEntry>>>, uidToStream: Option<map<u32, int>>, channelUid: int): (r: seq<EpgEntry>)
    ensures r != [] ==> epg.Some? && uidToStream.Some? && U32Of(channelUid) in uidToStream.value &&
                        IntToString(uidToStream.value[U32Of(channelUid)]) in epg.value
  {
    if epg.None? || uidToStream.None? then []
    else
      var uid := U32Of(channelUid);
      if uid !in uidToStream.value then []
      else
        var key := IntToString(uidToStream.value[uid]);
        if key !in epg.value then [] else epg.value[key]
  }

  /** `GetEPGForChannel`: the tags of the channel's entries that overlap the window. */
  method GetEpgForChannel(epg: Option<map<string, seq<EpgEntry>>>, uidToStream: Option<map<u32, int>>,
                          channelUid: int, start: int, end: int) returns (tags: seq<EpgTag>)
    ensures tags == TagsInWindow(EpgEntriesFor(epg, uidToStream, channelUid), channelUid, start, end)
  {
    var entries := EpgEntriesFor(epg, uidToStream, channelUid);
    if entries == [] {
      return [];
    }
    tags := AddTagsInWindow(entries, channelUid, start, end);
  }

  // ---------------------------------------------------------------------------
  // IsEPGTagPlayable
  // ---------------------------------------------------------------------------

  /** The first stream whose id, cast to `unsigned int`, is the channel uid. */
  function FirstStreamFor(streams: seq<LiveStream>, uid: u32): (r: Option<LiveStream>)
    ensures r.Some? ==> exists k :: 0 <= k < |streams| && streams[k] == r.value && U32Of(streams[k].id) == uid &&
                                    forall j :: 0 <= j < k ==> U32Of(streams[j].id) != uid
    ensures r.None? ==> forall j :: 0 <= j < |streams| ==> U32Of(streams[j].id) != uid
    decreases |streams|
  {
    if streams == [] then None
    else if U32Of(streams[0].id) == uid then Some(streams[0])
    else
      var r := FirstStreamFor(streams[1..], uid);
      if r.Some? then
        ghost var k :| 0 <= k < |streams| - 1 && streams[1..][k] == r.value && U32Of(streams[1..][k].id) == uid &&
                       forall j :: 0 <= j < k ==> U32Of(streams[1..][j].id) != uid;
        assert streams[k + 1] == r.value;
        assert forall j :: 1 <= j < k + 1 ==> streams[j] == streams[1..][j - 1];
        r
      else
        assert forall j :: 1 <= j < |streams| ==> streams[j] == streams[1..][j - 1];
        r
  }

  /**
   * The archive test: the stream has catch-up with a positive duration in
   * hours and the programme ends no earlier than that many hours ago. The
   * product `tvArchiveDuration * 3600` is an `int` product.
   */
  predicate InArchive(s: LiveStream, endTime: int, now: int) {
    s.tvArchive && s.tvArchiveDuration > 0 && endTime >= now - WrapInt32(s.tvArchiveDuration * 3600)
  }

  /**
   * `IsEPGTagPlayable`: nothing is playable before streams are loaded or
   * for a programme yet to start; an airing programme only with
   * play-from-start; otherwise the first stream for the channel decides by
   * its archive.
   */
  function IsEpgTagPlayable(streams: Option<seq<LiveStream>>, channelUid: u32, startTime: int, endTime: int,
                            now: int, enablePlayFromStart: bool): (playable: bool)
  {
    if streams.None? then false
    else if startTime > now then false
    else if startTime <= now < endTime && !enablePlayFromStart then false
    else
      match FirstStreamFor(streams.value, channelUid)
      case None => false
      case Some(s) => InArchive(s, endTime, now)
  }

  /** A programme that has not started is never playable. */
  lemma FutureNeverPlayable(streams: Option<seq<LiveStream>>, channelUid: u32, startTime: int, endTime: int,
                            now: int, enablePlayFromStart: bool)
    requires startTime > now
    ensures !IsEpgTagPlayable(streams, channelUid, startTime, endTime, now, enablePlayFromStart)
  {
  }

  /**
   * Playable means: streams are loaded, the programme has started, it is
   * over or play-from-start is on, and a stream for the channel, the first
   * one in list order, has it in its archive.
   */
  lemma PlayableMeaning(streams: Option<seq<LiveStream>>, channelUid: u32, startTime: int, endTime: int,
                        now: int, enablePlayFromStart: bool)
    ensures IsEpgTagPlayable(streams, channelUid, startTime, endTime, now, enablePlayFromStart) <==>
            streams.Some? && startTime <= now && (now >= endTime || enablePlayFromStart) &&
            exists k :: 0 <= k < |streams.value| && U32Of(streams.value[k].id) == channelUid &&
                        (forall j :: 0 <= j < k ==> U32Of(streams.value[j].id) != channelUid) &&
                        InArchive(streams.value[k], endTime, now)
  {
    if streams.Some? {
      var ss := streams.value;
      var r := FirstStreamFor(ss, channelUid);
      if exists k :: 0 <= k < |ss| && U32Of(ss[k].id) == channelUid &&
                     (forall j :: 0 <= j < k ==> U32Of(ss[j].id) != channelUid) && InArchive(ss[k], endTime, now) {
        var k :| 0 <= k < |ss| && U32Of(ss[k].id) == channelUid &&
                 (forall j :: 0 <= j < k ==> U32Of(ss[j].id) != channelUid) && InArchive(ss[k], endTime, now);
        var k' :| 0 <= k' < |ss| && ss[k'] == r.value && U32Of(ss[k'].id) == channelUid &&
                  forall j :: 0 <= j < k' ==> U32Of(ss[j].id) != channelUid;
        assert k == k';
      }
    }
  }

  /**
   * With a duration that does not overflow, a programme that ended within
   * the last `tvArchiveDuration` hours on an archived channel is playable.
   */
  lemma RecentlyEndedIsPlayable(streams: seq<LiveStream>, k: nat, startTime: int, endTime: int, now: int, enablePlayFromStart: bool)
    requires k < |streams| && forall j :: 0 <= j < k ==> streams[j].id != streams[k].id
    requires forall j :: 0 <= j < |streams| ==> 0 < streams[j].id < 0x8000_0000
    requires streams[k].tvArchive && 0 < streams[k].tvArchiveDuration <= 596523
    requires startTime < endTime <= now && endTime >= now - streams[k].tvArchiveDuration * 3600
    ensures IsEpgTagPlayable(Some(streams), U32Of(streams[k].id), startTime, endTime, now, enablePlayFromStart)
  {
    assert forall j :: 0 <= j < |streams| ==> U32Of(streams[j].id) == streams[j].id;
    PlayableMeaning(Some(streams), U32Of(streams[k].id), startTime, endTime, now, enablePlayFromStart);
  }

  // ---------------------------------------------------------------------------
  // Timer client indexes
  // ---------------------------------------------------------------------------

  /** The client index of the `idx`-th series rule. */
  function SeriesIndex(idx: nat): u32 { U32Of(10000 + idx) }

  /** The client index of a recurring rule. */
  function RecurringIndex(id: int): u32 { U32Of(20000 + id) }

  /** The client index of a scheduled recording. */
  function RecordingIndex(id: int): u32 { U32Of(30000 + id) }

  /** What `DeleteTimer` takes a client index for. */
  datatype TimerRef = Recording(id: int) | RecurringRule(id: int) | SeriesRule(idx: nat) | NoTimer

  /** `DeleteTimer`'s range test: 30000 and up, 20000 and up, 10000 and up. */
  function DecodeClientIndex(ci: u32): (r: TimerRef)
    ensures r.Recording? <==> ci >= 30000
    ensures r.RecurringRule? <==> 20000 <= ci < 30000
    ensures r.SeriesRule? <==> 10000 <= ci < 20000
  {
    if ci >= 30000 then Recording(WrapInt32(ci - 30000))
    else if ci >= 20000 then RecurringRule(ci - 20000)
    else if ci >= 10000 then SeriesRule(ci - 10000)
    else NoTimer
  }

  /** Each kind of timer is told apart again while its number stays below the next range. */
  lemma ClientIndexRoundTrip(idx: nat, ruleId: int, recId: int)
    ensures idx < 10000 ==> DecodeClientIndex(SeriesIndex(idx)) == SeriesRule(idx)
    ensures 0 <= ruleId < 10000 ==> DecodeClientIndex(RecurringIndex(ruleId)) == RecurringRule(ruleId)
    ensures 0 <= recId < 0x8000_0000 ==> DecodeClientIndex(RecordingIndex(recId)) == Recording(recId)
  {
  }

  /**
   * The ranges are not closed: a recurring rule numbered 10000 gets the
   * index of recording 0, and the 10000th series rule the index of
   * recurring rule 0.
   */
  lemma ClientIndexRangesOverlap()
    ensures RecurringIndex(10000) == RecordingIndex(0)
    ensures DecodeClientIndex(RecurringIndex(10000)) == Recording(0)
    ensures DecodeClientIndex(SeriesIndex(10000)) == RecurringRule(0)
  {
  }
}

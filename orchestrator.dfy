/**
 * The refresh state machine of `CXtreamCodesPVRClient` (addon.cpp):
 * `EnsureLoaded` decides from a settings signature whether a background
 * load is needed and seeds the channel list once per signature from the
 * disk cache; the worker takes a request, fetches, builds and publishes
 * unless the settings changed meanwhile; Kodi refreshes are throttled; a
 * catch-up URL prepared for a channel is used by the next stream request
 * on it and then dropped.
 *
 * The worker thread is modelled as separate steps (`WorkerTake`,
 * `CategoriesFetched`, `StreamsFetched`, `Publish`, ...) that any other
 * method may run between, which is what the mutex allows; network replies,
 * file contents and clock readings are parameters.
 */
module Orchestrator {
  import opened Text
  import opened Catalog
  import opened Snapshots
  import opened Patterns
  import opened ChannelBuild
  import opened Hashing
  import opened SettingsXml
  import opened CacheCodec
  import opened Urls
  import opened Xmltv

  // ---------------------------------------------------------------------------
  // What EnsureLoaded reads
  // ---------------------------------------------------------------------------

  /** The add-on settings as Kodi reports them. */
  datatype KodiSettings = KodiSettings(
    streamFormat: string,
    channelNumbering: string,
    filterRaw: string,
    filterSeparators: bool,
    categoryFilterMode: string,
    categoryFilterRaw: string)

  /** Kodi's values with the defaults for empty ones: `ts`, `sequential`, `all`. */
  function WithDefaults(k: KodiSettings): (c: KodiSettings)
    ensures c.streamFormat != [] && c.channelNumbering != [] && c.categoryFilterMode != []
  {
    k.(streamFormat := if k.streamFormat == [] then "ts" else k.streamFormat,
       channelNumbering := if k.channelNumbering == [] then "sequential" else k.channelNumbering,
       categoryFilterMode := if k.categoryFilterMode == [] then "all" else k.categoryFilterMode)
  }

  /** Kodi may report defaults before it has read the stored settings: no filters and mode `all`. */
  predicate LooksLikeDefaults(c: KodiSettings) {
    ToLower(c.categoryFilterMode) == "all" && Trimmed(c.categoryFilterRaw) == [] && Trimmed(c.filterRaw) == []
  }

  /** A value from settings.xml replaces the current one; `nonEmpty` demands a non-empty value. */
  function Override(current: string, found: Option<string>, nonEmpty: bool): string {
    if found.Some? && (!nonEmpty || found.value != []) then found.value else current
  }

  /**
   * The values read from the add-on's own settings.xml: the format, the
   * numbering and the category mode are only ever replaced by a non-empty
   * value, while a stored filter, even an empty one, replaces the current
   * one; the separator flag is not read from the file.
   */
  function FromXml(c: KodiSettings, xml: string): (r: KodiSettings)
    ensures r.filterSeparators == c.filterSeparators
    ensures c.streamFormat != [] ==> r.streamFormat != []
    ensures c.channelNumbering != [] ==> r.channelNumbering != []
    ensures c.categoryFilterMode != [] ==> r.categoryFilterMode != []
    ensures ExtractSettingValue(xml, "channel_filter_patterns") == Some([]) ==> r.filterRaw == []
    ensures ExtractSettingValue(xml, "channel_filter_patterns").None? ==> r.filterRaw == c.filterRaw
    ensures ExtractSettingValue(xml, "category_filter_patterns") == Some([]) ==> r.categoryFilterRaw == []
    ensures ExtractSettingValue(xml, "category_filter_patterns").None? ==> r.categoryFilterRaw == c.categoryFilterRaw
  {
    c.(streamFormat := Override(c.streamFormat, ExtractSettingValue(xml, "stream_format"), true),
       channelNumbering := Override(c.channelNumbering, ExtractSettingValue(xml, "channel_numbering"), true),
       filterRaw := Override(c.filterRaw, ExtractSettingValue(xml, "channel_filter_patterns"), false),
       categoryFilterMode := Override(c.categoryFilterMode, ExtractSettingValue(xml, "category_filter_mode"), true),
       categoryFilterRaw := Override(c.categoryFilterRaw, ExtractSettingValue(xml, "category_filter_patterns"), false))
  }

  /**
   * The settings a load runs with: Kodi's, with defaults, and when those
   * look like defaults, the values settings.xml holds (`xml` is the file,
   * if it could be read).
   */
  function ResolvedSettings(k: KodiSettings, xml: Option<string>): (c: KodiSettings)
    ensures c.streamFormat != [] && c.channelNumbering != [] && c.categoryFilterMode != []
    ensures c.filterSeparators == k.filterSeparators
  {
    var c := WithDefaults(k);
    var r := if LooksLikeDefaults(c) && xml.Some? then FromXml(c, xml.value) else c;
    r.(categoryFilterMode := if r.categoryFilterMode == [] then "all" else r.categoryFilterMode)
  }

  /** Settings that do not look like defaults are taken from Kodi alone. */
  lemma KodiSettingsWin(k: KodiSettings, xml: Option<string>)
    requires !LooksLikeDefaults(WithDefaults(k))
    ensures ResolvedSettings(k, xml) == WithDefaults(k)
  {
  }

  /** When Kodi reports defaults, a filter stored in settings.xml is the one used. */
  lemma StoredFilterUsed(k: KodiSettings, xml: string)
    requires LooksLikeDefaults(WithDefaults(k))
    requires ExtractSettingValue(xml, "channel_filter_patterns").Some?
    ensures ResolvedSettings(k, Some(xml)).filterRaw == ExtractSettingValue(xml, "channel_filter_patterns").value
  {
  }

  /** Server, user name and password are not blank, and the port is in 1..65535. */
  predicate HaveCredentials(xt: Settings) {
    Trimmed(xt.server) != [] && Trimmed(xt.username) != [] && Trimmed(xt.password) != [] &&
    0 < xt.port <= 65535
  }

  /** The pieces of `parts` one after the other. */
  function Joined(parts: seq<string>): string
    decreases |parts|
  {
    if parts == [] then [] else Joined(parts[..|parts| - 1]) + parts[|parts| - 1]
  }

  /** The settings signature: what a load and a cache file are keyed by; secrets and filters enter hashed. */
  function SettingsSignature(xt: Settings, c: KodiSettings): string {
    Joined([xt.server, ":", IntToString(xt.port), "/", xt.username, "/", HashHex(xt.password),
            "|fmt=", ToLower(c.streamFormat), "|num=", ToLower(c.channelNumbering),
            "|flt=", HashHex(c.filterRaw), "|catmode=", ToLower(c.categoryFilterMode),
            "|catflt=", HashHex(c.categoryFilterRaw), "|sep=", if c.filterSeparators then "1" else "0"])
  }

  /** The signature ends with the separator flag, so two settings that differ in it never share a cache. */
  lemma SignatureSeparatorFlag(xt: Settings, c: KodiSettings)
    ensures var sig := SettingsSignature(xt, c);
            |sig| > 0 && (sig[|sig| - 1] == '1' <==> c.filterSeparators)
  {
  }

  /**
   * `EnsureLoaded` starts a load unless the data for this signature is
   * loaded and idle, or a load for it is already running.
   */
  predicate StartsLoad(dataLoaded: bool, loading: bool, current: string, sig: string) {
    !(dataLoaded && sig == current && !loading) && !(loading && sig == current)
  }

  /** A load starts exactly when the signature changed, or when nothing is loaded or loading for it. */
  lemma StartsLoadMeaning(dataLoaded: bool, loading: bool, current: string, sig: string)
    ensures StartsLoad(dataLoaded, loading, current, sig) <==> sig != current || (!dataLoaded && !loading)
  {
  }

  // ---------------------------------------------------------------------------
  // Seeding from the disk cache
  // ---------------------------------------------------------------------------

  /**
   * The snapshot `TryLoadCacheForSignature` publishes: none when there is
   * no file, when the file does not decode under the signature, or when
   * channels are already published.
   */
  function CacheSeed(current: Option<Snapshot>, blob: Option<string>, sig: string): (r: Option<Snapshot>)
    ensures r.Some? ==> blob.Some? && LoadedSnapshot(blob.value, sig) == r
    ensures r.Some? ==> current.None? || current.value.channels == []
  {
    if blob.None? then None
    else
      match LoadedSnapshot(blob.value, sig)
      case None => None
      case Some(s) => if current.Some? && current.value.channels != [] then None else Some(s)
  }

  /** What is published after the attempt. */
  function Seeded(current: Option<Snapshot>, blob: Option<string>, sig: string): Option<Snapshot> {
    var seed := CacheSeed(current, blob, sig);
    if seed.Some? then seed else current
  }

  /** Published channels are never replaced from the cache. */
  lemma SeedKeepsChannels(current: Option<Snapshot>, blob: Option<string>, sig: string)
    requires current.Some? && current.value.channels != []
    ensures Seeded(current, blob, sig) == current
  {
  }

  /** A cache written under another signature seeds nothing. */
  lemma SeedNeedsSignature(current: Option<Snapshot>, written: string, sig: string, ts: u64,
                           categories: seq<LiveCategory>, channels: seq<CacheChannel>, trailing: string)
    requires |written| < Limit32 && written != sig
    ensures CacheSeed(current, Some(EncodeCache(written, ts, categories, channels) + trailing), sig) == None
  {
    WrongSignatureCacheRejected(written, sig, ts, categories, channels, trailing);
  }

  /** A whole cache written under another signature seeds nothing. */
  lemma WholeCacheNeedsSignature(written: string, sig: string, ts: u64,
                                 categories: seq<LiveCategory>, channels: seq<CacheChannel>)
    requires |written| < Limit32 && written != sig
    ensures CacheSeed(None, Some(EncodeCache(written, ts, categories, channels)), sig) == None
  {
    var e := EncodeCache(written, ts, categories, channels);
    assert e + [] == e;
    SeedNeedsSignature(None, written, sig, ts, categories, channels, []);
  }

  /** A cache written under the signature seeds an empty client with what was written. */
  lemma SeedFromSavedCache(written: string, ts: u64, categories: seq<LiveCategory>, channels: seq<CacheChannel>)
    requires Encodable(written, categories, channels)
    ensures CacheSeed(None, Some(EncodeCache(written, ts, categories, channels)), written) ==
            Some(SnapshotOf(CacheContents(ts, CacheCategories(categories), channels)))
  {
    assert EncodeCache(written, ts, categories, channels) + [] == EncodeCache(written, ts, categories, channels);
    SaveThenLoad(written, ts, categories, channels, []);
  }

  // ---------------------------------------------------------------------------
  // The worker's view
  // ---------------------------------------------------------------------------

  /** The configuration `EnsureLoaded` hands to the worker (the client's `m_xtreamSettings`, `m_streamFormat`, ...). */
  datatype WorkerConfig = WorkerConfig(
    settings: Settings,
    streamFormat: string,
    channelNumbering: string,
    filterRaw: string,
    categoryFilterMode: string,
    categoryFilterRaw: string,
    filterSeparators: bool)

  /** The configuration a load starts with: the resolved settings, with format, numbering and mode lower-cased. */
  function ConfigFor(xt: Settings, c: KodiSettings): (w: WorkerConfig)
    ensures w.settings == xt && w.filterRaw == c.filterRaw && w.categoryFilterRaw == c.categoryFilterRaw
    ensures w.filterSeparators == c.filterSeparators
    ensures |w.streamFormat| == |c.streamFormat| && |w.categoryFilterMode| == |c.categoryFilterMode|
  {
    WorkerConfig(xt, ToLower(c.streamFormat), ToLower(c.channelNumbering), c.filterRaw, ToLower(c.categoryFilterMode),
                 c.categoryFilterRaw, c.filterSeparators)
  }

  /** What the worker copies under the lock when it takes a request. */
  datatype Job = Job(
    gen: nat,
    config: WorkerConfig,
    /** The settings signature at the time; only the corrected cache write uses it. */
    signature: string)

  /** The filter settings of a job, split and lowered as the worker does. */
  function JobConfig(job: Job): BuildConfig {
    BuildConfig(PatternsOf(job.config.filterRaw), PatternsOf(job.config.categoryFilterRaw),
                ToLower(job.config.categoryFilterMode), ToLower(job.config.channelNumbering), job.config.filterSeparators)
  }

  /** What the streams calls of a job's cycle return, per its category filter. */
  function FetchForJob(job: Job, categories: seq<LiveCategory>, all: StreamsReply, replies: seq<StreamsReply>): Fetched
    requires var cfg := JobConfig(job);
             var plan := PlanFetch(categories, cfg.categoryPatterns, cfg.modeLower);
             plan.PerCategory? ==> |replies| == |plan.ids|
  {
    var cfg := JobConfig(job);
    FetchStreamsCorrected(PlanFetch(categories, cfg.categoryPatterns, cfg.modeLower), all, replies)
  }

  /** The worker's choice and run of the streams calls for a job. */
  method FetchLiveStreams(job: Job, categories: seq<LiveCategory>, all: StreamsReply, replies: seq<StreamsReply>)
    returns (fetched: Fetched)
    requires var cfg := JobConfig(job);
             var plan := PlanFetch(categories, cfg.categoryPatterns, cfg.modeLower);
             plan.PerCategory? ==> |replies| == |plan.ids|
    ensures fetched == FetchForJob(job, categories, all, replies)
    ensures !fetched.FailedAndBuilt?
  {
    var categoryPatterns := SplitPatterns(job.config.categoryFilterRaw);
    var plan := PlanFetch(categories, categoryPatterns, ToLower(job.config.categoryFilterMode));
    fetched := FetchStreamsCorrected(plan, all, replies);
  }

  /** A prepared catch-up URL, valid until `expiresAtMs`. */
  datatype PendingCatchup = PendingCatchup(url: string, expiresAtMs: int, startTime: int, endTime: int)

  /** `PendingCatchup{}`. */
  const NoCatchup := PendingCatchup([], 0, 0, 0)

  /** A prepared URL is used while it has not expired and is not empty. */
  function UsableUrl(p: PendingCatchup, nowMs: int): (url: string)
    ensures url != [] ==> p.expiresAtMs >= nowMs && url == p.url
  {
    if p.expiresAtMs >= nowMs && p.url != [] then p.url else []
  }

  /** The catch-up state of the client. */
  datatype CatchupState = CatchupState(pending: map<u32, PendingCatchup>, active: PendingCatchup, activeUid: u32)

  /**
   * A stream request on channel `uid`: a prepared URL for it is taken out
   * whether or not it is still usable, and becomes the active catch-up if
   * it is; without one the request is live and the active catch-up is
   * cleared.
   */
  function ConsumeCatchup(st: CatchupState, uid: u32, nowMs: int): (r: (string, CatchupState))
    ensures uid !in r.1.pending
    ensures r.0 != [] ==> uid in st.pending && r.0 == st.pending[uid].url
  {
    if uid in st.pending then
      var p := st.pending[uid];
      var url := UsableUrl(p, nowMs);
      (url, CatchupState(st.pending - {uid}, if url != [] then p else st.active, if url != [] then uid else st.activeUid))
    else
      ([], CatchupState(st.pending, NoCatchup, 0))
  }

  /** A prepared URL is used at most once: the next request on the channel is live and clears the catch-up. */
  lemma CatchupUsedOnce(st: CatchupState, uid: u32, now1: int, now2: int)
    ensures var first := ConsumeCatchup(st, uid, now1);
            var second := ConsumeCatchup(first.1, uid, now2);
            second.0 == [] && second.1.active == NoCatchup && second.1.activeUid == 0
  {
  }

  /** A URL prepared at `nowMs` is usable for 30 seconds, then expires. */
  lemma CatchupLifetime(st: CatchupState, uid: u32, url: string, nowMs: int, later: int, start: int, end: int)
    requires url != []
    ensures var p := PendingCatchup(url, nowMs + 30000, start, end);
            var r := ConsumeCatchup(st.(pending := st.pending[uid := p]), uid, later);
            (r.0 == url <==> later <= nowMs + 30000) && (r.0 == [] <==> later > nowMs + 30000)
  {
  }

  /** The refresh throttle: a trigger goes through unless one went through less than 2000 ms ago. */
  predicate ThrottleFires(lastMs: int, nowMs: int) {
    !(lastMs != 0 && nowMs - lastMs < 2000)
  }

  /** After a trigger goes through at a non-zero time, every trigger in the next 2000 ms is dropped. */
  lemma ThrottleWindow(lastMs: int, t1: int, t2: int)
    requires ThrottleFires(lastMs, t1) && t1 != 0 && t1 <= t2 < t1 + 2000
    ensures !ThrottleFires(t1, t2)
    ensures ThrottleFires(t1, t1 + 2000)
  {
  }

  class Addon {
    var generation: nat
    var workRequested: bool
    var loading: bool
    var dataLoaded: bool
    var groupsReady: bool
    var stopRequested: bool
    var workerStarted: bool
    var warnedMissingCreds: bool
    var settingsSignature: string
    var cacheSignatureAttempted: string

    var config: WorkerConfig

    // What Kodi is served: channels, uid index, groups and group order together, and the streams.
    var published: Option<Snapshot>
    var streams: Option<seq<LiveStream>>
    var epgData: Option<map<string, ChannelEpg>>

    var lastRefreshTriggerMs: int
    var pendingCatchup: map<u32, PendingCatchup>
    var activeCatchup: PendingCatchup
    var activeCatchupChannelUid: u32

    /** Loaded data is published, complete with its groups, and no load is running. */
    ghost predicate Valid()
      reads this`dataLoaded, this`published, this`streams, this`loading, this`groupsReady
    {
      dataLoaded ==> published.Some? && streams.Some? && !loading && groupsReady
    }

    function Catchup(): CatchupState
      reads this
    {
      CatchupState(pendingCatchup, activeCatchup, activeCatchupChannelUid)
    }

    constructor ()
      ensures Valid()
      ensures generation == 0 && !workRequested && !loading && !dataLoaded && !groupsReady
      ensures !stopRequested && !workerStarted && settingsSignature == [] && cacheSignatureAttempted == []
      ensures published.None? && streams.None? && epgData.None?
      ensures lastRefreshTriggerMs == 0 && Catchup() == CatchupState(map[], NoCatchup, 0)
    {
      generation, workRequested, loading, dataLoaded, groupsReady := 0, false, false, false, false;
      stopRequested, workerStarted, warnedMissingCreds := false, false, false;
      settingsSignature, cacheSignatureAttempted := [], [];
      config := WorkerConfig(Settings([], 0, [], [], false, [], 0), [], [], [], [], [], true);
      published, streams, epgData := None, None, None;
      lastRefreshTriggerMs := 0;
      pendingCatchup, activeCatchup, activeCatchupChannelUid := map[], NoCatchup, 0;
    }

    /** `TryLoadCacheForSignature`, given the cache file's contents if it could be read. */
    method TryLoadCacheForSignature(sig: string, blob: Option<string>) returns (ok: bool)
      requires Valid()
      modifies this`published
      ensures Valid()
      ensures ok == CacheSeed(old(published), blob, sig).Some?
      ensures published == Seeded(old(published), blob, sig)
    {
      if blob.None? {
        return false;
      }
      var r := LoadCache(blob.value, sig);
      if r.None? {
        return false;
      }
      if published.Some? && published.value.channels != [] {
        return false;
      }
      published := r;
      return true;
    }

    /** The cache is tried once per signature: a signature already tried is not tried again. */
    method AttemptCacheOnce(sig: string, blob: Option<string>)
      requires Valid()
      modifies this`cacheSignatureAttempted, this`published
      ensures Valid()
      ensures cacheSignatureAttempted == sig
      ensures published == if old(cacheSignatureAttempted) != sig then Seeded(old(published), blob, sig) else old(published)
    {
      if cacheSignatureAttempted != sig {
        cacheSignatureAttempted := sig;
        var _ := TryLoadCacheForSignature(sig, blob);
      }
    }

    /** Starting a load: the new signature and configuration, a new generation and a work request. */
    method StartLoad(xt: Settings, c: KodiSettings, sig: string)
      modifies this`settingsSignature, this`loading, this`dataLoaded, this`groupsReady, this`config,
               this`generation, this`workRequested, this`workerStarted
      ensures Valid()
      ensures generation == old(generation) + 1 && workRequested && loading && !dataLoaded && !groupsReady
      ensures settingsSignature == sig && config == ConfigFor(xt, c) && workerStarted
    {
      settingsSignature := sig;
      loading, dataLoaded, groupsReady := true, false, false;
      config := ConfigFor(xt, c);
      generation := generation + 1;
      workRequested := true;
      workerStarted := true;
    }

    /**
     * `EnsureLoaded` once the settings are resolved to `c` with signature
     * `sig`: try the cache once per signature, then start a load unless
     * that signature is already loaded or loading.
     */
    method LoadForSignature(xt: Settings, c: KodiSettings, sig: string, blob: Option<string>) returns (started: bool)
      requires Valid()
      modifies this`cacheSignatureAttempted, this`published, this`settingsSignature, this`loading, this`dataLoaded,
               this`groupsReady, this`config, this`generation, this`workRequested, this`workerStarted
      ensures Valid()
      ensures cacheSignatureAttempted == sig
      ensures published == if old(cacheSignatureAttempted) != sig then Seeded(old(published), blob, sig) else old(published)
      ensures started == StartsLoad(old(dataLoaded), old(loading), old(settingsSignature), sig)
      ensures started ==> generation == old(generation) + 1 && workRequested && loading && !dataLoaded && !groupsReady &&
                          settingsSignature == sig && config == ConfigFor(xt, c) && workerStarted
      ensures !started ==> generation == old(generation) && workRequested == old(workRequested) &&
                           loading == old(loading) && dataLoaded == old(dataLoaded) && groupsReady == old(groupsReady) &&
                           settingsSignature == old(settingsSignature) && config == old(config)
    {
      AttemptCacheOnce(sig, blob);
      if dataLoaded && sig == settingsSignature && !loading {
        return false;
      }
      if loading && sig == settingsSignature {
        return false;
      }
      StartLoad(xt, c, sig);
      started := true;
    }

    /**
     * `EnsureLoaded`, given the credentials in force, Kodi's settings, the
     * settings.xml text and the cache file. Without credentials it only
     * marks the warning as given. Otherwise it resolves the settings and
     * their signature and goes on as `LoadForSignature`.
     */
    method EnsureLoaded(xt: Settings, kodi: KodiSettings, xml: Option<string>, blob: Option<string>)
      returns (started: bool)
      requires Valid()
      modifies this`warnedMissingCreds, this`cacheSignatureAttempted, this`published, this`settingsSignature,
               this`loading, this`dataLoaded, this`groupsReady, this`config, this`generation, this`workRequested,
               this`workerStarted
      ensures Valid()
      ensures !HaveCredentials(xt) ==> !started && warnedMissingCreds && unchanged(this`cacheSignatureAttempted,
                                         this`published, this`settingsSignature, this`loading, this`dataLoaded,
                                         this`generation, this`workRequested, this`config)
      ensures HaveCredentials(xt) ==>
                var c := ResolvedSettings(kodi, xml);
                var sig := SettingsSignature(xt, c);
                !warnedMissingCreds && cacheSignatureAttempted == sig &&
                started == StartsLoad(old(dataLoaded), old(loading), old(settingsSignature), sig) &&
                (started ==> generation == old(generation) + 1 && workRequested && loading && !dataLoaded &&
                             settingsSignature == sig && config == ConfigFor(xt, c)) &&
                (!started ==> generation == old(generation) && settingsSignature == old(settingsSignature) &&
                              loading == old(loading) && dataLoaded == old(dataLoaded) && config == old(config))
    {
      if !HaveCredentials(xt) {
        warnedMissingCreds := true;
        return false;
      }
      warnedMissingCreds := false;
      var c := ResolvedSettings(kodi, xml);
      var sig := SettingsSignature(xt, c);
      started := LoadForSignature(xt, c, sig, blob);
    }

    /** The worker wakes for a request: it consumes it and copies the generation and configuration. */
    method WorkerTake() returns (job: Job)
      requires workRequested && !stopRequested
      modifies this`workRequested
      ensures !workRequested
      ensures job == Job(generation, config, settingsSignature)
    {
      workRequested := false;
      job := Job(generation, config, settingsSignature);
    }

    /** Stopping was requested, or the settings changed since the job was taken. */
    predicate Stale(job: Job)
      reads this`stopRequested, this`generation
    {
      stopRequested || job.gen != generation
    }

    /** `failLoad`: the load is over and nothing is loaded. */
    method FailLoad()
      modifies this`loading, this`dataLoaded, this`workRequested
      ensures Valid()
      ensures !loading && !dataLoaded && !workRequested
    {
      loading, dataLoaded, workRequested := false, false, false;
    }

    /** After the categories call: a stale job is dropped; a failed call ends the load. */
    method CategoriesFetched(job: Job, res: FetchResult) returns (proceed: bool)
      requires Valid()
      modifies this`loading, this`dataLoaded, this`workRequested
      ensures Valid()
      ensures proceed == (!Stale(job) && res.ok)
      ensures Stale(job) || res.ok ==> unchanged(this`loading, this`dataLoaded, this`workRequested)
      ensures !Stale(job) && !res.ok ==> !loading && !dataLoaded && !workRequested
    {
      if stopRequested || job.gen != generation {
        return false;
      }
      if !res.ok {
        FailLoad();
        return false;
      }
      return true;
    }

    /**
     * After the streams calls: a failure ends the load, but after the
     * failed fallback of a per-category fetch the cycle still goes on with
     * no streams; then a stale job is dropped.
     */
    method StreamsFetched(job: Job, fetched: Fetched) returns (got: Option<seq<LiveStream>>)
      requires Valid()
      modifies this`loading, this`dataLoaded, this`workRequested
      ensures Valid()
      ensures got == (if fetched.Failed? || Stale(job) then None
                      else if fetched.Got? then Some(fetched.streams) else Some([]))
      ensures fetched.Got? ==> unchanged(this`loading, this`dataLoaded, this`workRequested)
      ensures !fetched.Got? ==> !loading && !dataLoaded && !workRequested
    {
      if fetched.Failed? || fetched.FailedAndBuilt? {
        FailLoad();
        if fetched.Failed? {
          return None;
        }
      }
      if stopRequested || job.gen != generation {
        return None;
      }
      got := if fetched.Got? then Some(fetched.streams) else Some([]);
    }

    /** The publish step: under the lock, a job that is still current replaces what Kodi is served. */
    method Publish(job: Job, snapshot: Snapshot, fetchedStreams: seq<LiveStream>) returns (ok: bool)
      modifies this`published, this`streams, this`config, this`loading, this`dataLoaded, this`groupsReady
      ensures ok == !Stale(job)
      ensures ok ==> published == Some(snapshot) && streams == Some(fetchedStreams) && !loading && dataLoaded &&
                     groupsReady && config == old(config).(settings := job.config.settings, streamFormat := job.config.streamFormat)
      ensures !ok ==> unchanged(this`published, this`streams, this`config, this`loading, this`dataLoaded, this`groupsReady)
    {
      if stopRequested || job.gen != generation {
        return false;
      }
      published := Some(snapshot);
      streams := Some(fetchedStreams);
      config := config.(settings := job.config.settings, streamFormat := job.config.streamFormat);
      loading, dataLoaded, groupsReady := false, true, true;
      return true;
    }

    /** A parsed XMLTV guide replaces the EPG, with no generation check. */
    method EpgParsed(epg: map<string, ChannelEpg>)
      modifies this`epgData
      ensures epgData == Some(epg)
    {
      epgData := Some(epg);
    }

    /** The cache write at the end of a cycle, as written: keyed by the signature in force now. */
    method SaveCacheAsWritten(ts: u64, categories: seq<LiveCategory>, cacheChannels: seq<CacheChannel>) returns (blob: string)
      ensures blob == EncodeCache(settingsSignature, ts, categories, cacheChannels)
    {
      blob := SaveCache(settingsSignature, ts, categories, cacheChannels);
    }

    /** The cache write keyed by the signature the job was built under. */
    method SaveCacheForJob(job: Job, ts: u64, categories: seq<LiveCategory>, cacheChannels: seq<CacheChannel>) returns (blob: string)
      ensures blob == EncodeCache(job.signature, ts, categories, cacheChannels)
    {
      blob := SaveCache(job.signature, ts, categories, cacheChannels);
    }

    /**
     * The end of a worker cycle: build from the fetched streams
     * under the job's settings, publish if the job is still current, and
     * then write the cache for the job's signature, given the clock reading
     * `ts`.
     */
    method BuildAndPublish(job: Job, fetchedStreams: seq<LiveStream>, categories: seq<LiveCategory>, ts: u64)
      returns (ok: bool, built: Built, blob: Option<string>)
      modifies this`published, this`streams, this`config, this`loading, this`dataLoaded, this`groupsReady
      ensures built == BuildFrom(fetchedStreams, categories, JobConfig(job))
      ensures ok == !Stale(job)
      ensures ok ==> dataLoaded && !loading && groupsReady && published == Some(built.snapshot) &&
                     streams == Some(fetchedStreams) &&
                     blob == Some(EncodeCache(job.signature, ts, categories, built.cacheChannels))
      ensures !ok ==> blob.None? &&
                      unchanged(this`published, this`streams, this`config, this`loading, this`dataLoaded, this`groupsReady)
    {
      var patterns := SplitPatterns(job.config.filterRaw);
      var categoryPatterns := SplitPatterns(job.config.categoryFilterRaw);
      var cfg := BuildConfig(patterns, categoryPatterns, ToLower(job.config.categoryFilterMode),
                             ToLower(job.config.channelNumbering), job.config.filterSeparators);
      built := Build(fetchedStreams, categories, cfg);
      ok := Publish(job, built.snapshot, fetchedStreams);
      if !ok {
        return false, built, None;
      }
      var saved := SaveCacheForJob(job, ts, categories, built.cacheChannels);
      blob := Some(saved);
    }

    /**
     * The worker's cycle after the categories call succeeded for a job
     * that is still current, given the outcome `fetched` of the streams
     * calls (as `FetchLiveStreams` runs them for the job) and the clock
     * reading `ts`. Fetched streams are built, published and cached. After
     * a failed fallback of a per-category fetch (`FailedAndBuilt`) the
     * cycle publishes a build from no streams and marks it loaded; a
     * plain failure ends with nothing loaded.
     */
    method FinishCycle(job: Job, categories: seq<LiveCategory>, fetched: Fetched, ts: u64)
      returns (ok: bool, built: Built, blob: Option<string>)
      requires Valid() && !Stale(job)
      modifies this`workRequested, this`published, this`streams, this`config, this`loading, this`dataLoaded,
               this`groupsReady
      ensures Valid()
      ensures ok <==> !fetched.Failed?
      ensures ok ==> built == BuildFrom(if fetched.Got? then fetched.streams else [], categories, JobConfig(job))
      ensures ok ==> dataLoaded && published == Some(built.snapshot) &&
                     streams == Some(if fetched.Got? then fetched.streams else []) &&
                     blob == Some(EncodeCache(job.signature, ts, categories, built.cacheChannels))
      ensures !ok ==> !loading && !dataLoaded && blob.None?
    {
      var got := StreamsFetched(job, fetched);
      assert !Stale(job);
      var fetchedStreams := if fetched.Got? then fetched.streams else [];
      if got.None? {
        ok, built, blob := false, BuildFrom(fetchedStreams, categories, JobConfig(job)), None;
        return;
      }
      ok, built, blob := BuildAndPublish(job, fetchedStreams, categories, ts);
    }

    /**
     * The start of a worker cycle: take the pending request as a job and
     * look at the reply of the categories call. The cycle goes on to
     * `FinishCycle` only when the call succeeded; otherwise nothing is
     * loaded.
     */
    method BeginCycle(catsRes: FetchResult) returns (job: Job, proceed: bool)
      requires Valid() && workRequested && !stopRequested
      modifies this`workRequested, this`loading, this`dataLoaded
      ensures Valid() && !workRequested
      ensures job == Job(generation, config, settingsSignature)
      ensures proceed <==> catsRes.ok
      ensures proceed ==> !Stale(job) && unchanged(this`loading, this`dataLoaded)
      ensures !proceed ==> !loading && !dataLoaded
    {
      job := WorkerTake();
      assert !Stale(job);
      proceed := CategoriesFetched(job, catsRes);
    }

    /** `TriggerKodiRefreshThrottled` at time `nowMs`. */
    method TriggerRefreshThrottled(nowMs: int) returns (fired: bool)
      modifies this`lastRefreshTriggerMs
      ensures fired == ThrottleFires(old(lastRefreshTriggerMs), nowMs)
      ensures lastRefreshTriggerMs == if fired then nowMs else old(lastRefreshTriggerMs)
    {
      var last := lastRefreshTriggerMs;
      if last != 0 && nowMs - last < 2000 {
        return false;
      }
      lastRefreshTriggerMs := nowMs;
      return true;
    }

    /** `GetEPGTagStreamProperties` keeps the catch-up URL it built for the channel for 30 seconds. */
    method StorePendingCatchup(uid: u32, url: string, nowMs: int, startTime: int, endTime: int)
      modifies this`pendingCatchup
      ensures pendingCatchup == old(pendingCatchup)[uid := PendingCatchup(url, nowMs + 30000, startTime, endTime)]
    {
      pendingCatchup := pendingCatchup[uid := PendingCatchup(url, nowMs + 30000, startTime, endTime)];
    }

    /** The catch-up lookup of `GetChannelStreamProperties`: the URL to play, or empty for the live stream. */
    method TakePendingCatchup(uid: u32, nowMs: int) returns (url: string)
      modifies this`pendingCatchup, this`activeCatchup, this`activeCatchupChannelUid
      ensures (url, Catchup()) == ConsumeCatchup(old(Catchup()), uid, nowMs)
    {
      if uid in pendingCatchup {
        var p := pendingCatchup[uid];
        url := [];
        if p.expiresAtMs >= nowMs && p.url != [] {
          url := p.url;
          activeCatchup := p;
          activeCatchupChannelUid := uid;
        }
        pendingCatchup := pendingCatchup - {uid};
      } else {
        url := [];
        activeCatchup := NoCatchup;
        activeCatchupChannelUid := 0;
      }
    }
  }

  // ---------------------------------------------------------------------------
  // Step sequences
  // ---------------------------------------------------------------------------

  /**
   * A job overtaken by a settings change is never published: after the
   * worker takes a request, an `EnsureLoaded` that starts a new load makes
   * the job's publish step a no-op.
   */
  method StaleJobNotPublished(a: Addon, xt: Settings, kodi: KodiSettings, xml: Option<string>, blob: Option<string>,
                              snapshot: Snapshot, fetchedStreams: seq<LiveStream>)
    returns (started: bool, published: bool)
    requires a.Valid() && a.workRequested && !a.stopRequested
    modifies a
    ensures started ==> !published
  {
    var job := a.WorkerTake();
    started := a.EnsureLoaded(xt, kodi, xml, blob);
    published := a.Publish(job, snapshot, fetchedStreams);
  }

  /**
   * The cache race: a cycle publishes, then `EnsureLoaded` sees settings
   * with the new signature `newSig` (`LoadForSignature`) while the cycle
   * downloads the guide, and the cycle's cache write files the old
   * channels under `newSig`, so the next start with the new settings is
   * seeded with channels built under the old ones. Writing with the job's
   * signature keys them to the settings they were built under, and a
   * start under `newSig` then ignores them.
   */
  method CacheSavedUnderNewerSignature(a: Addon, job: Job, snapshot: Snapshot, fetchedStreams: seq<LiveStream>,
                                       xt: Settings, c: KodiSettings, newSig: string, blob: Option<string>,
                                       ts: u64, categories: seq<LiveCategory>, cacheChannels: seq<CacheChannel>)
    returns (asWritten: string, corrected: string)
    requires a.Valid() && !a.Stale(job) && job.signature == a.settingsSignature
    requires newSig != a.settingsSignature && Encodable(newSig, categories, cacheChannels)
    requires |job.signature| < Limit32
    modifies a
    ensures CacheSeed(None, Some(asWritten), newSig) == Some(SnapshotOf(CacheContents(ts, CacheCategories(categories), cacheChannels)))
    ensures CacheSeed(None, Some(corrected), newSig) == None
  {
    var ok := a.Publish(job, snapshot, fetchedStreams);
    var started := a.LoadForSignature(xt, c, newSig, blob);
    asWritten := a.SaveCacheAsWritten(ts, categories, cacheChannels);
    SeedFromSavedCache(newSig, ts, categories, cacheChannels);
    corrected := a.SaveCacheForJob(job, ts, categories, cacheChannels);
    WholeCacheNeedsSignature(job.signature, newSig, ts, categories, cacheChannels);
  }
}

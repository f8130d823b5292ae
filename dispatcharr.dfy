/**
 * The Dispatcharr DVR client (dispatcharr_client.h, dispatcharr_client.cpp):
 * the base URL it sends requests to, the channel list it reads, the two
 * channel maps `EnsureChannelMapping` builds once and the lookups through
 * them, the status checks that decide whether a request succeeded, and the
 * request bodies of the two rule-creating calls.
 *
 * The HTTP exchange itself (`Request`, `EnsureToken`) is not modelled: the
 * outcome of the token step and the server's reply are parameters.
 */
module Dispatcharr {
  import opened Text
  import opened JsonSpans
  import opened JsonFields
  import opened DvrJson
  import Urls
  import Catalog

  /** `DvrSettings`. */
  datatype DvrSettings = DvrSettings(
    server: string,
    port: int,
    username: string,
    password: string,
    timeoutSeconds: int)

  /** What `Request` hands back: the HTTP status and the body. */
  datatype HttpResponse = HttpResponse(statusCode: int, body: string)

  /** `DispatchChannel`: the server's own id and the channel number Kodi uses as its uid. */
  datatype DispatchChannel = DispatchChannel(id: int, channelNumber: int, name: string, uuid: string)

  /** `RecurringRule`. */
  datatype RecurringRule = RecurringRule(
    id: int,
    channelId: int,
    daysOfWeek: seq<int>,
    startTime: string,
    endTime: string,
    startDate: string,
    endDate: string,
    name: string,
    enabled: bool)

  // ---------------------------------------------------------------------------
  // GetBaseUrl
  // ---------------------------------------------------------------------------

  /**
   * Whether `GetBaseUrl` appends `:port`: the port is positive and not 80,
   * and the host part (the text after `://` when the server has a scheme,
   * else the whole server) holds no `:`.
   */
  predicate AppendsPort(server: string, port: int) {
    var hostPart := if Urls.HasScheme(server) then Urls.HostPart(server) else server;
    !Contains(hostPart, ":") && port > 0 && port != 80
  }

  /** The URL `GetBaseUrl` returns. Unlike the Xtream builder it does not trim the server. */
  function BaseUrl(st: DvrSettings): string {
    var server := Urls.WithoutTrailingSlashes(st.server);
    var front := (if Urls.HasScheme(server) then "" else "http://") + server;
    if AppendsPort(server, st.port) then front + ":" + IntToString(st.port) else front
  }

  /**
   * Every base URL has an `http://` or `https://` scheme and starts with the
   * server without its trailing slashes; the default port 80, a port that is
   * not positive, and a server that already names a port add nothing after it.
   */
  lemma BaseUrlShape(st: DvrSettings)
    ensures Urls.HasScheme(BaseUrl(st))
    ensures var server := Urls.WithoutTrailingSlashes(st.server);
      var front := (if Urls.HasScheme(server) then "" else "http://") + server;
      StartsWith(BaseUrl(st), front)
      && (st.port == 80 || st.port <= 0 ==> BaseUrl(st) == front)
      && (!Urls.HasScheme(server) && Contains(server, ":") ==> BaseUrl(st) == front)
  {
    var server := Urls.WithoutTrailingSlashes(st.server);
    var front := (if Urls.HasScheme(server) then "" else "http://") + server;
    var r := BaseUrl(st);
    assert r[..|front|] == front;
    if Urls.HasScheme(server) {
      if StartsWith(server, "http://") {
        PrefixSlice(r, server, 0, 7);
      } else {
        PrefixSlice(r, server, 0, 8);
      }
    } else {
      assert r[..7] == "http://";
    }
  }

  lemma WithoutTrailingSlashesSnoc(s: string)
    ensures Urls.WithoutTrailingSlashes(s + "/") == Urls.WithoutTrailingSlashes(s)
  {
    assert (s + "/")[..|s|] == s;
  }

  /** A trailing slash on the server does not change the base URL. */
  lemma TrailingSlashIgnored(st: DvrSettings)
    ensures BaseUrl(st.(server := st.server + "/")) == BaseUrl(st)
  {
    WithoutTrailingSlashesSnoc(st.server);
  }

  /** A server without a scheme that names a port gets `http://` and nothing after it. */
  lemma UnschemedServerKeepsPort(st: DvrSettings)
    requires !Urls.HasScheme(Urls.WithoutTrailingSlashes(st.server))
    requires Contains(Urls.WithoutTrailingSlashes(st.server), ":")
    ensures BaseUrl(st) == "http://" + Urls.WithoutTrailingSlashes(st.server)
  {
  }

  /** A server with a scheme and no port in its host part gets any port other than 80. */
  lemma SchemedServerGetsPort(st: DvrSettings)
    requires Urls.HasScheme(Urls.WithoutTrailingSlashes(st.server))
    requires !Contains(Urls.HostPart(Urls.WithoutTrailingSlashes(st.server)), ":")
    requires st.port > 0 && st.port != 80
    ensures BaseUrl(st) == Urls.WithoutTrailingSlashes(st.server) + ":" + IntToString(st.port)
  {
  }

  // ---------------------------------------------------------------------------
  // FetchChannels
  // ---------------------------------------------------------------------------

  /**
   * The per-object step of `FetchChannels`: an object without a readable
   * `id` is skipped; a missing `channel_number` is 0 and a missing `name` or
   * `uuid` is empty.
   */
  function ChannelOf(obj: string): (r: Option<DispatchChannel>)
    ensures r.Some? <==> ExtractIntField(obj, "id").Some?
    ensures r.Some? ==> r.value.id == ExtractIntField(obj, "id").value
  {
    match ExtractIntField(obj, "id")
    case None => None
    case Some(id) =>
      Some(DispatchChannel(id,
        Catalog.OrElse(ExtractIntField(obj, "channel_number"), 0),
        Catalog.OrElse(TextField(obj, "name"), ""),
        Catalog.OrElse(TextField(obj, "uuid"), "")))
  }

  /** The text of every object `ForEachObjectInArray` hands to its callback, in order. */
  function ArrayObjects(body: string): (objs: seq<string>)
    ensures |objs| == |ArraySpans(body)|
    ensures forall j :: 0 <= j < |objs| ==> MatchedObject(objs[j])
  {
    var spans := ArraySpans(body);
    ArraySpansAreObjects(body);
    seq(|spans|, j requires 0 <= j < |spans| => body[spans[j].start..spans[j].end])
  }

  /** The channel list a reply body gives. */
  function ChannelsOf(body: string): seq<DispatchChannel> {
    Catalog.Collect(ChannelOf, ArrayObjects(body))
  }

  /**
   * A channel is in the list exactly when some object of the reply yields
   * it, and there are never more channels than objects.
   */
  lemma ChannelsMembers(body: string, ch: DispatchChannel)
    ensures ch in ChannelsOf(body) <==>
      exists j :: 0 <= j < |ArrayObjects(body)| && ChannelOf(ArrayObjects(body)[j]) == Some(ch)
    ensures |ChannelsOf(body)| <= |ArraySpans(body)|
  {
    Catalog.CollectMembers(ChannelOf, ArrayObjects(body), ch);
  }

  // ---------------------------------------------------------------------------
  // The channel maps
  // ---------------------------------------------------------------------------

  /** A `std::map` filled by `m[k] = v` for every pair in order: the last value for a key wins. */
  function LastWins(pairs: seq<(int, int)>): map<int, int>
    decreases |pairs|
  {
    if pairs == [] then map[]
    else LastWins(pairs[..|pairs| - 1])[pairs[|pairs| - 1].0 := pairs[|pairs| - 1].1]
  }

  lemma {:induction false} LastWinsKeys(pairs: seq<(int, int)>, k: int)
    ensures k in LastWins(pairs) <==> exists j :: 0 <= j < |pairs| && pairs[j].0 == k
    decreases |pairs|
  {
    if pairs != [] {
      var n := |pairs|;
      var init := pairs[..n - 1];
      LastWinsKeys(init, k);
      if exists j :: 0 <= j < n && pairs[j].0 == k {
        var j :| 0 <= j < n && pairs[j].0 == k;
        if j < n - 1 {
          assert init[j].0 == k;
        }
      }
      if k in LastWins(init) {
        var j :| 0 <= j < n - 1 && init[j].0 == k;
        assert pairs[j].0 == k;
      }
    }
  }

  lemma {:induction false} LastWinsValue(pairs: seq<(int, int)>, j: nat)
    requires j < |pairs|
    requires forall i :: j < i < |pairs| ==> pairs[i].0 != pairs[j].0
    ensures pairs[j].0 in LastWins(pairs) && LastWins(pairs)[pairs[j].0] == pairs[j].1
    decreases |pairs|
  {
    var n := |pairs|;
    if j < n - 1 {
      var init := pairs[..n - 1];
      assert init[j] == pairs[j];
      LastWinsValue(init, j);
    }
  }

  function NumberPairs(chs: seq<DispatchChannel>): seq<(int, int)> {
    seq(|chs|, j requires 0 <= j < |chs| => (chs[j].channelNumber, chs[j].id))
  }

  function IdPairs(chs: seq<DispatchChannel>): seq<(int, int)> {
    seq(|chs|, j requires 0 <= j < |chs| => (chs[j].id, chs[j].channelNumber))
  }

  /** `m_channelNumberToDispatchId` after the fill loop over `chs`. */
  function NumberToId(chs: seq<DispatchChannel>): map<int, int> {
    LastWins(NumberPairs(chs))
  }

  /** `m_dispatchIdToChannelNumber` after the fill loop over `chs`. */
  function IdToNumber(chs: seq<DispatchChannel>): map<int, int> {
    LastWins(IdPairs(chs))
  }

  /**
   * The number map has a key for every channel number and no other; its
   * value is the id of the last channel with that number.
   */
  lemma NumberToIdMeaning(chs: seq<DispatchChannel>, n: int, j: nat)
    ensures n in NumberToId(chs) <==> exists i :: 0 <= i < |chs| && chs[i].channelNumber == n
    ensures j < |chs| && chs[j].channelNumber == n && (forall i :: j < i < |chs| ==> chs[i].channelNumber != n)
      ==> n in NumberToId(chs) && NumberToId(chs)[n] == chs[j].id
  {
    var pairs := NumberPairs(chs);
    LastWinsKeys(pairs, n);
    if exists i :: 0 <= i < |chs| && chs[i].channelNumber == n {
      var i :| 0 <= i < |chs| && chs[i].channelNumber == n;
      assert pairs[i].0 == n;
    }
    if j < |chs| && chs[j].channelNumber == n && (forall i :: j < i < |chs| ==> chs[i].channelNumber != n) {
      forall i | j < i < |pairs| ensures pairs[i].0 != pairs[j].0 {
        assert pairs[i].0 == chs[i].channelNumber;
      }
      LastWinsValue(pairs, j);
    }
  }

  /**
   * The id map has a key for every channel id and no other; its value is
   * the number of the last channel with that id.
   */
  lemma IdToNumberMeaning(chs: seq<DispatchChannel>, d: int, j: nat)
    ensures d in IdToNumber(chs) <==> exists i :: 0 <= i < |chs| && chs[i].id == d
    ensures j < |chs| && chs[j].id == d && (forall i :: j < i < |chs| ==> chs[i].id != d)
      ==> d in IdToNumber(chs) && IdToNumber(chs)[d] == chs[j].channelNumber
  {
    var pairs := IdPairs(chs);
    LastWinsKeys(pairs, d);
    if exists i :: 0 <= i < |chs| && chs[i].id == d {
      var i :| 0 <= i < |chs| && chs[i].id == d;
      assert pairs[i].0 == d;
    }
    if j < |chs| && chs[j].id == d && (forall i :: j < i < |chs| ==> chs[i].id != d) {
      forall i | j < i < |pairs| ensures pairs[i].0 != pairs[j].0 {
        assert pairs[i].0 == chs[i].id;
      }
      LastWinsValue(pairs, j);
    }
  }

  /** Both maps are empty exactly when there are no channels. */
  lemma EmptyMapsNoChannels(chs: seq<DispatchChannel>)
    ensures NumberToId(chs) == map[] <==> chs == []
    ensures IdToNumber(chs) == map[] <==> chs == []
  {
    if chs != [] {
      NumberToIdMeaning(chs, chs[0].channelNumber, 0);
      IdToNumberMeaning(chs, chs[0].id, 0);
    }
  }

  /**
   * With distinct channel numbers and distinct ids, mapping a number to its
   * id and the id back gives the number.
   */
  lemma MappingsInverse(chs: seq<DispatchChannel>, n: int)
    requires forall i, j :: 0 <= i < j < |chs| ==> chs[i].channelNumber != chs[j].channelNumber
    requires forall i, j :: 0 <= i < j < |chs| ==> chs[i].id != chs[j].id
    requires n in NumberToId(chs)
    ensures NumberToId(chs)[n] in IdToNumber(chs) && IdToNumber(chs)[NumberToId(chs)[n]] == n
  {
    NumberToIdMeaning(chs, n, 0);
    var j :| 0 <= j < |chs| && chs[j].channelNumber == n;
    NumberToIdMeaning(chs, n, j);
    IdToNumberMeaning(chs, chs[j].id, j);
  }

  /**
   * Two channels sharing a number: the later one's id wins in the number
   * map, while the id map keeps both, so one id no longer maps back.
   */
  lemma SharedNumberLaterWins()
    ensures var chs := [DispatchChannel(10, 5, "", ""), DispatchChannel(11, 5, "", "")];
      NumberToId(chs) == map[5 := 11] && IdToNumber(chs) == map[10 := 5, 11 := 5]
  {
    var chs := [DispatchChannel(10, 5, "", ""), DispatchChannel(11, 5, "", "")];
    assert NumberPairs(chs) == [(5, 10), (5, 11)];
    assert NumberPairs(chs)[..1] == [(5, 10)];
    assert [(5, 10)][..0] == [];
    assert IdPairs(chs) == [(10, 5), (11, 5)];
    assert IdPairs(chs)[..1] == [(10, 5)];
    assert [(10, 5)][..0] == [];
  }

  /** One more channel updates both maps at its number and its id. */
  lemma MapsSnoc(chs: seq<DispatchChannel>, i: nat)
    requires i < |chs|
    ensures NumberToId(chs[..i + 1]) == NumberToId(chs[..i])[chs[i].channelNumber := chs[i].id]
    ensures IdToNumber(chs[..i + 1]) == IdToNumber(chs[..i])[chs[i].id := chs[i].channelNumber]
  {
    assert NumberPairs(chs[..i + 1])[..i] == NumberPairs(chs[..i]);
    assert IdPairs(chs[..i + 1])[..i] == IdPairs(chs[..i]);
  }

  // ---------------------------------------------------------------------------
  // Client
  // ---------------------------------------------------------------------------

  /** `Client`: the settings and the two channel maps. */
  class Client {
    const settings: DvrSettings
    var numberToId: map<int, int>
    var idToNumber: map<int, int>
    /** The channel list the maps were filled from. */
    ghost var mapped: seq<DispatchChannel>

    /** Both maps are the fill of one channel list. */
    ghost predicate Valid()
      reads this`numberToId, this`idToNumber, this`mapped
    {
      numberToId == NumberToId(mapped) && idToNumber == IdToNumber(mapped)
    }

    constructor (settings: DvrSettings)
      ensures this.settings == settings
      ensures Valid() && numberToId == map[] && idToNumber == map[]
    {
      this.settings := settings;
      numberToId := map[];
      idToNumber := map[];
      mapped := [];
    }

    /** `GetBaseUrl`: pops trailing `/` bytes, then adds the scheme and the port. */
    method GetBaseUrl() returns (url: string)
      ensures url == BaseUrl(settings)
    {
      var server := settings.server;
      while server != [] && server[|server| - 1] == '/'
        invariant Urls.WithoutTrailingSlashes(server) == Urls.WithoutTrailingSlashes(settings.server)
      {
        server := server[..|server| - 1];
      }
      assert server == Urls.WithoutTrailingSlashes(settings.server);
      var hasProtocol := Urls.HasScheme(server);
      url := if hasProtocol then "" else "http://";
      url := url + server;
      var hostPart := if hasProtocol then Urls.HostPart(server) else server;
      var hasPort := Contains(hostPart, ":");
      if !hasPort && settings.port > 0 && settings.port != 80 {
        url := url + ":" + IntToString(settings.port);
      }
    }

    /**
     * `FetchChannels`: fails when the token step fails or the status is not
     * 200; otherwise succeeds, whatever the body, with the channels read from it.
     */
    method FetchChannels(tokenOk: bool, resp: HttpResponse) returns (ok: bool, channels: seq<DispatchChannel>)
      ensures ok <==> tokenOk && resp.statusCode == 200
      ensures channels == if ok then ChannelsOf(resp.body) else []
    {
      if !tokenOk || resp.statusCode != 200 {
        return false, [];
      }
      var isArray, spans := ForEachObjectInArray(resp.body);
      ArraySpansAreObjects(resp.body);
      ghost var objs := ArrayObjects(resp.body);
      channels := [];
      var i := 0;
      while i < |spans|
        invariant 0 <= i <= |spans| && |objs| == |spans|
        invariant channels == Catalog.Collect(ChannelOf, objs[..i])
      {
        var obj := resp.body[spans[i].start..spans[i].end];
        assert obj == objs[i];
        Catalog.CollectSnoc(ChannelOf, objs, i);
        var ch := ChannelOf(obj);
        if ch.Some? {
          channels := channels + [ch.value];
        }
        i := i + 1;
      }
      assert objs[..i] == objs;
      ok := true;
    }

    /**
     * `EnsureChannelMapping`: with a non-empty number map nothing is fetched;
     * otherwise the channels are fetched and both maps are filled from them,
     * in order. An empty channel list leaves the maps empty, so the next
     * call fetches again.
     */
    method EnsureChannelMapping(tokenOk: bool, resp: HttpResponse) returns (ok: bool)
      requires Valid()
      modifies this`numberToId, this`idToNumber, this`mapped
      ensures Valid()
      ensures old(numberToId) != map[] ==> ok && mapped == old(mapped)
      ensures old(numberToId) == map[] ==> (ok <==> tokenOk && resp.statusCode == 200)
      ensures old(numberToId) == map[] ==> mapped == if ok then ChannelsOf(resp.body) else []
    {
      if numberToId != map[] {
        return true;
      }
      EmptyMapsNoChannels(mapped);
      var channels;
      ok, channels := FetchChannels(tokenOk, resp);
      if !ok {
        return;
      }
      var i := 0;
      while i < |channels|
        invariant 0 <= i <= |channels|
        invariant numberToId == NumberToId(channels[..i]) && idToNumber == IdToNumber(channels[..i])
      {
        var ch := channels[i];
        MapsSnoc(channels, i);
        numberToId := numberToId[ch.channelNumber := ch.id];
        idToNumber := idToNumber[ch.id := ch.channelNumber];
        i := i + 1;
      }
      assert channels[..i] == channels;
      mapped := channels;
    }

    /** `GetDispatchChannelId`: the id mapped to the Kodi uid, or -1. */
    method GetDispatchChannelId(kodiChannelUid: int, tokenOk: bool, resp: HttpResponse) returns (id: int)
      requires Valid()
      modifies this`numberToId, this`idToNumber, this`mapped
      ensures Valid()
      ensures old(numberToId) != map[] ==> mapped == old(mapped)
      ensures old(numberToId) == map[] ==>
        mapped == if tokenOk && resp.statusCode == 200 then ChannelsOf(resp.body) else []
      ensures id == if kodiChannelUid in numberToId then numberToId[kodiChannelUid] else -1
    {
      var ok := EnsureChannelMapping(tokenOk, resp);
      if !ok {
        EmptyMapsNoChannels(mapped);
        return -1;
      }
      id := if kodiChannelUid in numberToId then numberToId[kodiChannelUid] else -1;
    }

    /** `GetKodiChannelUid`: the channel number mapped to the Dispatcharr id, or -1. */
    method GetKodiChannelUid(dispatchChannelId: int, tokenOk: bool, resp: HttpResponse) returns (uid: int)
      requires Valid()
      modifies this`numberToId, this`idToNumber, this`mapped
      ensures Valid()
      ensures old(numberToId) != map[] ==> mapped == old(mapped)
      ensures old(numberToId) == map[] ==>
        mapped == if tokenOk && resp.statusCode == 200 then ChannelsOf(resp.body) else []
      ensures uid == if dispatchChannelId in idToNumber then idToNumber[dispatchChannelId] else -1
    {
      var ok := EnsureChannelMapping(tokenOk, resp);
      if !ok {
        EmptyMapsNoChannels(mapped);
        return -1;
      }
      uid := if dispatchChannelId in idToNumber then idToNumber[dispatchChannelId] else -1;
    }
  }

  // ---------------------------------------------------------------------------
  // Success checks
  // ---------------------------------------------------------------------------

  /** The DELETE calls (`DeleteSeriesRule`, `DeleteRecurringRule`, `DeleteRecording`) accept 200 and 204. */
  predicate Deleted(status: int) {
    status == 200 || status == 204
  }

  /** `ScheduleRecording` accepts 200 and 201, whatever the body. */
  predicate Created(status: int) {
    status == 200 || status == 201
  }

  /** `AddSeriesRule`: 200 or 201 and a body mentioning `"id"` or `"tvg_id"`. */
  predicate SeriesRuleAdded(status: int, body: string) {
    Created(status) && (Contains(body, "\"id\"") || Contains(body, "\"tvg_id\""))
  }

  /** `AddRecurringRule`: 200 or 201 and a body mentioning `"id"`. */
  predicate RecurringRuleAdded(status: int, body: string) {
    Created(status) && Contains(body, "\"id\"")
  }

  lemma ContainsOccurrence(s: string, pat: string, k: nat)
    requires OccursAt(s, pat, k)
    ensures Contains(s, pat)
  {
    FindIsFirst(s, pat, 0);
  }

  /**
   * What each check makes of a reply: a created reply is one that carries
   * the key, 204 deletes but creates nothing, and the series check is the
   * looser of the two rule checks.
   */
  lemma SuccessChecks(status: int, pre: string, post: string)
    ensures RecurringRuleAdded(status, pre + "\"id\"" + post) <==> Created(status)
    ensures SeriesRuleAdded(status, pre + "\"tvg_id\"" + post) <==> Created(status)
    ensures RecurringRuleAdded(status, pre) ==> SeriesRuleAdded(status, pre)
    ensures Deleted(204) && !Created(204) && Created(201) && !Deleted(201)
  {
    var a := pre + "\"id\"" + post;
    assert a[|pre|..|pre| + 4] == "\"id\"";
    ContainsOccurrence(a, "\"id\"", |pre|);
    var b := pre + "\"tvg_id\"" + post;
    assert b[|pre|..|pre| + 8] == "\"tvg_id\"";
    ContainsOccurrence(b, "\"tvg_id\"", |pre|);
  }

  /** A created reply without the key is refused: `{}` with 201 adds no rule. */
  lemma EmptyReplyRefused()
    ensures Created(201) && !RecurringRuleAdded(201, "{}") && !SeriesRuleAdded(201, "{}")
  {
    FindNone("{}", "\"id\"", 0);
    FindNone("{}", "\"tvg_id\"", 0);
  }

  // ---------------------------------------------------------------------------
  // Request bodies
  // ---------------------------------------------------------------------------

  /** The body `AddSeriesRule` posts; an empty title or mode is left out. */
  function SeriesRuleBody(tvgId: string, title: string, mode: string): string {
    "{\"tvg_id\":\"" + Escaped(tvgId) + "\""
      + (if title == [] then "" else ",\"title\":\"" + Escaped(title) + "\"")
      + (if mode == [] then "" else ",\"mode\":\"" + Escaped(mode) + "\"")
      + "}"
  }

  /**
   * The `tvg_id` posted by `AddSeriesRule` is what `FetchSeriesRules` reads
   * back from the same text, for an id without backspace or form feed.
   */
  lemma SeriesRuleBodyReadsBack(tvgId: string, title: string, mode: string)
    requires ReadableEscapes(tvgId)
    ensures TextField(SeriesRuleBody(tvgId, title, mode), "tvg_id") == Some(tvgId)
  {
    var obj := SeriesRuleBody(tvgId, title, mode);
    var key := "tvg_id";
    var w := "{" + KeyNeedle(key) + ":\"" + Escaped(tvgId) + "\"";
    assert "{\"tvg_id\":\"" == "{" + KeyNeedle(key) + ":\"";
    assert obj[..|w|] == w;
    assert obj[0] == '{';
    assert !OccursAt(obj, KeyNeedle(key), 0) by {
      assert obj[0..|KeyNeedle(key)|][0] == '{';
    }
    TextFieldReadsBack(obj, "{", key, tvgId);
  }

  /** The fields `AddRecurringRule` writes before the days; only the name is escaped. */
  function RecurringRuleHead(rule: RecurringRule): string {
    "{\"channel\":" + IntToString(rule.channelId)
      + ",\"name\":\"" + Escaped(rule.name) + "\""
      + ",\"start_time\":\"" + rule.startTime + "\""
      + ",\"end_time\":\"" + rule.endTime + "\""
      + ",\"start_date\":\"" + rule.startDate + "\""
      + ",\"end_date\":\"" + rule.endDate + "\""
      + ",\"enabled\":true,"
  }

  /** The body `AddRecurringRule` posts: always enabled, the days joined by commas. */
  function RecurringRuleBody(rule: RecurringRule): string {
    RecurringRuleHead(rule) + "\"days_of_week\":[" + DaysText(rule.daysOfWeek) + "]}"
  }

  /**
   * The days posted by `AddRecurringRule` are what the `days_of_week` scan
   * of `FetchRecurringRules` reads back from the same text, when every day
   * is a single digit and no field before the days mentions the key.
   */
  lemma RecurringRuleDaysReadBack(rule: RecurringRule)
    requires forall k :: 0 <= k < |rule.daysOfWeek| ==> 0 <= rule.daysOfWeek[k] <= 9
    requires forall k :: 0 <= k < |RecurringRuleHead(rule)| ==>
      !OccursAt(RecurringRuleBody(rule), KeyNeedle(DaysKey), k)
    ensures DaysOfWeek(RecurringRuleBody(rule)) == rule.daysOfWeek
  {
    var head := RecurringRuleHead(rule);
    var obj := RecurringRuleBody(rule);
    var w := head + KeyNeedle(DaysKey) + ":[" + DaysText(rule.daysOfWeek) + "]";
    assert "\"days_of_week\":[" == KeyNeedle(DaysKey) + ":[";
    assert obj == w + "}";
    assert obj[..|w|] == w;
    DaysOfWeekReadsBack(obj, head, rule.daysOfWeek);
  }
}

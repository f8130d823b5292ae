/**
 * The Xtream catalogue (xtream_client.h, xtream_client.cpp): the category
 * and stream records, and how `FetchLiveCategories` and `FetchLiveStreams`
 * turn a `player_api.php` reply into them. The reply is scanned for
 * top-level objects; each object becomes one record when its id field can
 * be read, and is skipped otherwise; every other field keeps its default
 * when it is missing.
 */
module Catalog {
  import opened Text
  import opened JsonSpans
  import opened JsonFields
  import Urls

  /** `LiveCategory`. */
  datatype LiveCategory = LiveCategory(id: int, name: string)

  /** `LiveStream`; `tvArchiveDuration` is in hours. */
  datatype LiveStream = LiveStream(
    id: int,
    categoryId: int,
    number: int,
    name: string,
    icon: string,
    epgChannelId: string,
    tvArchive: bool,
    tvArchiveDuration: int)

  /** What the HTTP layer hands back: success, the status line, the body. */
  datatype HttpReply = HttpReply(ok: bool, protocol: string, body: string)

  /** `FetchResult`. */
  datatype FetchResult = FetchResult(ok: bool, details: string)

  function OrElse<T>(o: Option<T>, d: T): T {
    if o.Some? then o.value else d
  }

  /** The text of every top-level object of a reply, in order. */
  function ReplyObjects(json: string): (objs: seq<string>)
    ensures |objs| == |TopLevelSpans(json)|
    ensures forall j :: 0 <= j < |objs| ==> MatchedObject(objs[j])
  {
    var spans := TopLevelSpans(json);
    TopLevelSpansAreObjects(json);
    seq(|spans|, j requires 0 <= j < |spans| => json[spans[j].start..spans[j].end])
  }

  /** The records a list of objects gives, in order; an object `read` refuses is skipped. */
  function Collect<T>(read: string -> Option<T>, objs: seq<string>): seq<T>
    decreases |objs|
  {
    if objs == [] then []
    else
      var last := read(objs[|objs| - 1]);
      Collect(read, objs[..|objs| - 1]) + (if last.Some? then [last.value] else [])
  }

  /** One more object adds its record, if it gives one, at the end. */
  lemma CollectSnoc<T>(read: string -> Option<T>, objs: seq<string>, i: nat)
    requires i < |objs|
    ensures Collect(read, objs[..i + 1])
      == Collect(read, objs[..i]) + (if read(objs[i]).Some? then [read(objs[i]).value] else [])
  {
    assert objs[..i + 1][..i] == objs[..i];
  }

  /** A record is collected exactly when some object gives it, and no object gives two. */
  lemma {:induction false} CollectMembers<T>(read: string -> Option<T>, objs: seq<string>, x: T)
    ensures x in Collect(read, objs) <==> exists j :: 0 <= j < |objs| && read(objs[j]) == Some(x)
    ensures |Collect(read, objs)| <= |objs|
    decreases |objs|
  {
    if objs != [] {
      var n := |objs|;
      var init := objs[..n - 1];
      CollectMembers(read, init, x);
      if x in Collect(read, init) {
        var j :| 0 <= j < |init| && read(init[j]) == Some(x);
        assert objs[j] == init[j];
      } else if x in Collect(read, objs) {
        assert read(objs[n - 1]) == Some(x);
      }
      if exists j :: 0 <= j < n && read(objs[j]) == Some(x) {
        var j :| 0 <= j < n && read(objs[j]) == Some(x);
        if j < n - 1 {
          assert read(init[j]) == Some(x);
        }
      }
    }
  }

  // ---------------------------------------------------------------------------
  // Categories
  // ---------------------------------------------------------------------------

  /** The per-object step of `FetchLiveCategories`: no `category_id`, no category. */
  function CategoryFrom(obj: string): (r: Option<LiveCategory>)
    ensures r.Some? <==> ExtractIntField(obj, "category_id").Some?
    ensures r.Some? ==> r.value.name == OrElse(StringField(obj, "category_name"), [])
  {
    match ExtractIntField(obj, "category_id")
    case None => None
    case Some(id) => Some(LiveCategory(id, OrElse(StringField(obj, "category_name"), [])))
  }

  /** The categories read from a list of objects, in order. */
  function Categories(objs: seq<string>): seq<LiveCategory> {
    Collect(CategoryFrom, objs)
  }

  /** Every object with a readable `category_id` gives its category. */
  lemma ObjectsGiveCategories(objs: seq<string>, j: nat)
    requires j < |objs| && CategoryFrom(objs[j]).Some?
    ensures CategoryFrom(objs[j]).value in Categories(objs)
  {
    CollectMembers(CategoryFrom, objs, CategoryFrom(objs[j]).value);
  }

  /** Every category comes from one of the objects. */
  lemma CategoriesFromObjects(objs: seq<string>, c: LiveCategory)
    requires c in Categories(objs)
    ensures exists j :: 0 <= j < |objs| && CategoryFrom(objs[j]) == Some(c)
  {
    CollectMembers(CategoryFrom, objs, c);
  }

  /**
   * The parsing half of `FetchLiveCategories`, given the HTTP reply: the
   * result is a failure exactly when nothing was parsed, and the list is
   * the categories of the reply's objects.
   */
  method ParseCategoriesReply(http: HttpReply) returns (res: FetchResult, out: seq<LiveCategory>)
    ensures res.ok <==> out != []
    ensures out == (if http.ok then Categories(ReplyObjects(http.body)) else [])
    ensures !http.ok ==> res.details == (if http.protocol == [] then "Failed to fetch categories" else http.protocol)
    ensures http.ok && !IsArrayBody(http.body) ==> res == FetchResult(false, "Categories response was not a JSON array")
    ensures res.ok ==> res.details == (if http.protocol == [] then "OK" else http.protocol)
  {
    out := [];
    if !http.ok {
      res := FetchResult(false, if http.protocol == [] then "Failed to fetch categories" else http.protocol);
      return;
    }
    var any, spans := ForEachTopLevelObjectSpan(http.body);
    var objs := ReplyObjects(http.body);
    var i := 0;
    while i < |spans|
      invariant 0 <= i <= |spans| == |objs|
      invariant out == Categories(objs[..i])
    {
      var obj := objs[i];
      CollectSnoc(CategoryFrom, objs, i);
      var id := ExtractIntField(obj, "category_id");
      if id.Some? {
        var found, name := ExtractStringField(obj, "category_name");
        var c := LiveCategory(id.value, if found then name else []);
        out := out + [c];
      }
      i := i + 1;
    }
    assert objs[..i] == objs;
    if !any {
      res := FetchResult(false, "Categories response was not a JSON array");
      return;
    }
    if out == [] {
      res := FetchResult(false, "No categories parsed");
      return;
    }
    res := FetchResult(true, if http.protocol == [] then "OK" else http.protocol);
  }

  // ---------------------------------------------------------------------------
  // Streams
  // ---------------------------------------------------------------------------

  /**
   * The URL `FetchLiveStreams` requests: the `get_live_streams` action,
   * narrowed to one category when the category id is positive; empty when
   * no server is configured.
   */
  function LiveStreamsUrl(st: Urls.Settings, categoryId: int): string {
    var url := Urls.BuildPlayerApiUrlWithAction(st, "get_live_streams");
    if url == [] || categoryId <= 0 then url else url + "&category_id=" + IntToString(categoryId)
  }

  /** The per-object step of `FetchLiveStreams`: no `stream_id`, no stream. */
  function StreamFrom(obj: string): (r: Option<LiveStream>)
    ensures r.Some? <==> ExtractIntField(obj, "stream_id").Some?
    ensures r.Some? ==> r.value.id == ExtractIntField(obj, "stream_id").value
  {
    match ExtractIntField(obj, "stream_id")
    case None => None
    case Some(id) =>
      Some(LiveStream(
        id,
        OrElse(ExtractIntField(obj, "category_id"), 0),
        OrElse(ExtractIntField(obj, "num"), 0),
        OrElse(StringField(obj, "name"), []),
        OrElse(StringField(obj, "stream_icon"), []),
        OrElse(StringField(obj, "epg_channel_id"), []),
        OrElse(ExtractBoolField(obj, "tv_archive"), false),
        OrElse(ExtractIntField(obj, "tv_archive_duration"), 0)))
  }

  /** The streams read from a list of objects, in order. */
  function Streams(objs: seq<string>): seq<LiveStream> {
    Collect(StreamFrom, objs)
  }

  /** Every stream comes from one of the objects, whose `stream_id` it carries. */
  lemma StreamsFromObjects(objs: seq<string>, s: LiveStream)
    requires s in Streams(objs)
    ensures exists j :: 0 <= j < |objs| && StreamFrom(objs[j]) == Some(s)
  {
    CollectMembers(StreamFrom, objs, s);
  }

  /** Every object with a readable `stream_id` gives its stream. */
  lemma ObjectsGiveStreams(objs: seq<string>, j: nat)
    requires j < |objs| && StreamFrom(objs[j]).Some?
    ensures StreamFrom(objs[j]).value in Streams(objs)
  {
    CollectMembers(StreamFrom, objs, StreamFrom(objs[j]).value);
  }

  /** The parsing half of `FetchLiveStreams`, given the HTTP reply. */
  method ParseStreamsReply(http: HttpReply) returns (res: FetchResult, out: seq<LiveStream>)
    ensures res.ok <==> out != []
    ensures out == (if http.ok then Streams(ReplyObjects(http.body)) else [])
    ensures !http.ok ==> res.details == (if http.protocol == [] then "Failed to fetch streams" else http.protocol)
    ensures http.ok && !IsArrayBody(http.body) ==> res == FetchResult(false, "Streams response was not a JSON array")
    ensures res.ok ==> res.details == (if http.protocol == [] then "OK" else http.protocol)
  {
    out := [];
    if !http.ok {
      res := FetchResult(false, if http.protocol == [] then "Failed to fetch streams" else http.protocol);
      return;
    }
    var any, spans := ForEachTopLevelObjectSpan(http.body);
    var objs := ReplyObjects(http.body);
    var i := 0;
    while i < |spans|
      invariant 0 <= i <= |spans| == |objs|
      invariant out == Streams(objs[..i])
    {
      var obj := objs[i];
      CollectSnoc(StreamFrom, objs, i);
      var s := StreamFrom(obj);
      if s.Some? {
        out := out + [s.value];
      }
      i := i + 1;
    }
    assert objs[..i] == objs;
    if !any {
      res := FetchResult(false, "Streams response was not a JSON array");
      return;
    }
    if out == [] {
      res := FetchResult(false, "No streams parsed");
      return;
    }
    res := FetchResult(true, if http.protocol == [] then "OK" else http.protocol);
  }
}

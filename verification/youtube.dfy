/**
 * The YouTube provider: the account's favourite videos, read through the
 * GData YouTube service, each becoming a Video of the stored "YouTube" video
 * source.
 */
module Youtube {
  import opened Wrappers
  import opened Failures
  import opened Values
  import opened Strings
  import opened Records
  import opened Externals
  import opened Tables
  import Structured
  import Pipeline
  import Scans

  const VideoName: string := "Video"
  const SourceName: string := "VideoSource"

  /** Video: automatic key, then its source, title and url; it is followed by the timeline. */
  const VideoCls: ModelCls := ModelCls(VideoName, "id", ["source", "title", "url"], None, true)
  const VideoKey := "video"

  /** The name of the video source every favourite is filed under. */
  const YoutubeSource: string := "YouTube"

  /** A favourites feed entry: its links' hrefs, its title text, its category terms and its publication text. */
  datatype Entry = Entry(links: seq<string>, title: string, terms: seq<string>, published: string)

  /** `source_id`: the md5 of the record's url; a missing url raises KeyError. */
  function SourceId(ext: Externals, extra: Data): (r: Result<string, Failure>)
    ensures "url" !in extra ==> r == Err(KeyError("url"))
    ensures r.Ok? <==> "url" in extra && Show(extra["url"], ext.showTime).Ok?
    ensures r.Ok? && extra["url"].Str? ==> r.value == ext.md5(extra["url"].s)
  {
    var u :- Get(extra, "url");
    var s :- Show(u, ext.showTime);
    Ok(ext.md5(s))
  }

  /** The source id depends on the url alone: records with the same url share it, whatever else they hold. */
  lemma SourceIdOnlyUrl(ext: Externals, a: Data, b: Data)
    requires ("url" in a) == ("url" in b)
    requires "url" in a ==> a["url"] == b["url"]
    ensures SourceId(ext, a) == SourceId(ext, b)
  {
  }

  /**
   * The tags: every category term but the last, joined by spaces. The last
   * category is the link to the video schema, not a tag.
   */
  function Tags(terms: seq<string>): string {
    Join(SliceTo(terms, -1), " ")
  }

  /** The last term never reaches the tags, and every other term does, in order. */
  lemma TagsDropLast(terms: seq<string>, last: string)
    ensures Tags(terms + [last]) == Join(terms, " ")
    ensures Tags([]) == ""
  {
    assert SliceTo(terms + [last], -1) == terms;
  }

  /**
   * One entry's candidate: the first link's href, the title, the tags, the
   * published time and the YouTube source. An entry without links raises
   * IndexError before its date is parsed; `stamp` is `dateutil.parser.parse`.
   */
  function VideoRecord(sourcePk: string, stamp: string -> Result<int, Failure>, e: Entry): Result<Data, Failure> {
    if |e.links| == 0 then Err(IndexError("list index out of range"))
    else
      var t :- stamp(e.published);
      Ok(map["url" := Str(e.links[0]), "title" := Str(e.title), "tags" := Str(Tags(e.terms)),
             "timestamp" := Time(t), "source" := Ref(SourceName, sourcePk)])
  }

  function Candidate(sourcePk: string, stamp: string -> Result<int, Failure>): Entry -> Result<Data, Failure> {
    (e: Entry) => VideoRecord(sourcePk, stamp, e)
  }

  /** `update_video`: one candidate per favourite, in feed order; there is no checkpoint. */
  function UpdateVideo(entries: seq<Entry>, sourcePk: string, stamp: string -> Result<int, Failure>)
    : Result<seq<Data>, Failure>
  {
    Scans.TakeMap(entries, Scans.Never(), Candidate(sourcePk, stamp))
  }

  /** One entry's candidate: it fails exactly when the entry has no link or its date does not parse, and holds the entry otherwise. */
  lemma VideoFields(sourcePk: string, stamp: string -> Result<int, Failure>, e: Entry)
    ensures VideoRecord(sourcePk, stamp, e).Ok? <==> |e.links| > 0 && stamp(e.published).Ok?
    ensures |e.links| == 0 ==> VideoRecord(sourcePk, stamp, e) == Err(IndexError("list index out of range"))
    ensures var c := VideoRecord(sourcePk, stamp, e);
      c.Ok? ==> (|e.links| > 0 && stamp(e.published).Ok? &&
        Has(c.value, "url", Str(e.links[0])) && Has(c.value, "title", Str(e.title)) &&
        Has(c.value, "tags", Str(Tags(e.terms))) && Has(c.value, "timestamp", Time(stamp(e.published).value)) &&
        Has(c.value, "source", Ref(SourceName, sourcePk)))
  {
  }

  /** The update fails exactly when some entry has no link or an unparsable date. */
  lemma UpdateVideoFails(entries: seq<Entry>, sourcePk: string, stamp: string -> Result<int, Failure>)
    ensures UpdateVideo(entries, sourcePk, stamp).Ok? <==>
      forall i :: 0 <= i < |entries| ==> |entries[i].links| > 0 && stamp(entries[i].published).Ok?
  {
    var f := Candidate(sourcePk, stamp);
    Scans.TakeMapAllOk(entries, f);
    forall i | 0 <= i < |entries|
      ensures f(entries[i]).Ok? <==> |entries[i].links| > 0 && stamp(entries[i].published).Ok?
    {
      VideoFields(sourcePk, stamp, entries[i]);
    }
  }

  /**
   * Every favourite yields one candidate, in feed order, holding its first
   * link, its title and its tags, and filed under the YouTube source.
   */
  lemma OneVideoPerEntry(entries: seq<Entry>, sourcePk: string, stamp: string -> Result<int, Failure>)
    requires UpdateVideo(entries, sourcePk, stamp).Ok?
    ensures var r := UpdateVideo(entries, sourcePk, stamp).value;
      |r| == |entries| && forall i :: 0 <= i < |entries| ==> (
        |entries[i].links| > 0 && Has(r[i], "url", Str(entries[i].links[0])) &&
        Has(r[i], "title", Str(entries[i].title)) && Has(r[i], "tags", Str(Tags(entries[i].terms))) &&
        Has(r[i], "source", Ref(SourceName, sourcePk)))
  {
    var f := Candidate(sourcePk, stamp);
    var r := UpdateVideo(entries, sourcePk, stamp).value;
    Scans.TakeMapAll(entries, f);
    forall i | 0 <= i < |entries|
      ensures |entries[i].links| > 0 && Has(r[i], "url", Str(entries[i].links[0])) &&
        Has(r[i], "title", Str(entries[i].title)) && Has(r[i], "tags", Str(Tags(entries[i].terms))) &&
        Has(r[i], "source", Ref(SourceName, sourcePk))
    {
      VideoFields(sourcePk, stamp, entries[i]);
    }
  }

  /** The service clients the constructor registers: the YouTube service, for videos. */
  function Clients<P>(service: P): Table<P> {
    [(VideoKey, service)]
  }

  /**
   * `update_main` for model `m`: `get_update_data` logs the model's service
   * client in, and `update_<m>` reads the favourites through it.
   */
  function Update<P>(sourcePk: string, service: P, login: P -> Result<P, Failure>,
                     favourites: P -> Result<seq<Entry>, Failure>, stamp: string -> Result<int, Failure>,
                     m: string): Result<seq<Data>, Failure>
  {
    var client :- Structured.GDataUpdateData(Clients(service), login, m);
    if m == VideoKey then
      var entries :- favourites(client);
      UpdateVideo(entries, sourcePk, stamp)
    else Err(AttributeError("update_" + m))
  }

  /**
   * The provider once its source row is known. `service` is the YouTube
   * service class, `login` is `ClientLogin` with the Google account and
   * `favourites` is `GetUserFavoritesFeed`; `enabled` is the GData check.
   */
  function Unregistered<P>(sourcePk: string, ext: Externals, service: P, login: P -> Result<P, Failure>,
                           favourites: P -> Result<seq<Entry>, Failure>, stamp: string -> Result<int, Failure>,
                           enabled: bool): Pipeline.Provider
  {
    Pipeline.Provider(
      "YoutubeProvider", enabled, {"update_" + Lower(VideoName)}, [],
      (cls: ModelCls, d: Data) => SourceId(ext, d),
      Pipeline.BaseDefaultFields,
      (db: Db, m: string) => Update(sourcePk, service, login, favourites, stamp, m),
      (db: Db, m: string, cls: ModelCls, d: Data) => Err(NotImplemented),
      (db: Db, o: Obj, m: string, cls: ModelCls, d: Data, created: bool) => Ok(db),
      (db: Db, o: Obj, d: Data) => Ok((db, o)))
  }

  /** The provider with Video registered, at priority 0, and the base hooks kept. */
  function Registered<P>(sourcePk: string, ext: Externals, service: P, login: P -> Result<P, Failure>,
                         favourites: P -> Result<seq<Entry>, Failure>, stamp: string -> Result<int, Failure>,
                         enabled: bool): (r: Pipeline.Provider)
    ensures r == Unregistered(sourcePk, ext, service, login, favourites, stamp, enabled).(registry := r.registry)
    ensures Pipeline.QueuesOne(r, VideoCls)
    ensures Pipeline.BaseHooks(r) && Pipeline.KeepsValid(r) && r.enabled == enabled
  {
    var base := Unregistered(sourcePk, ext, service, login, favourites, stamp, enabled);
    var p := Pipeline.RegisterOne(base, VideoCls, 0);
    Pipeline.BaseKeepsValid(p);
    p
  }

  /**
   * `YoutubeProvider()`: the stored video source named "YouTube" is read, and
   * the construction fails when there is not exactly one.
   */
  function Provider<P>(rows: seq<Obj>, ext: Externals, service: P, login: P -> Result<P, Failure>,
                       favourites: P -> Result<seq<Entry>, Failure>, stamp: string -> Result<int, Failure>,
                       hasUsername: bool, hasPassword: bool, gdataImported: bool): (r: Result<Pipeline.Provider, Failure>)
    ensures r.Err? <==> GetWhere(rows, SourceName, "name", Str(YoutubeSource)).Err?
    ensures r.Ok? ==> Pipeline.QueuesOne(r.value, VideoCls) && Pipeline.KeepsValid(r.value)
    ensures r.Ok? ==> (r.value.enabled <==> Structured.GDataEnabled(hasUsername, hasPassword, gdataImported))
  {
    var source :- GetWhere(rows, SourceName, "name", Str(YoutubeSource));
    Ok(Registered(source.pk.value, ext, service, login, favourites, stamp,
                  Structured.GDataEnabled(hasUsername, hasPassword, gdataImported)))
  }

  /** The Video update logs the service client in, then turns its favourites into candidates; a failed login or fetch fails it. */
  lemma UpdateLogsIn<P>(sourcePk: string, service: P, login: P -> Result<P, Failure>,
                        favourites: P -> Result<seq<Entry>, Failure>, stamp: string -> Result<int, Failure>)
    ensures Update(sourcePk, service, login, favourites, stamp, VideoKey) ==
      (match login(service)
       case Err(e) => Err(e)
       case Ok(client) =>
         match favourites(client)
         case Err(e) => Err(e)
         case Ok(entries) => UpdateVideo(entries, sourcePk, stamp))
  {
    assert Structured.GDataUpdateData(Clients(service), login, VideoKey) == login(service);
  }

  /** The provider's update is `Update`, for every model name. */
  lemma ProviderUpdate<P>(sourcePk: string, ext: Externals, service: P, login: P -> Result<P, Failure>,
                          favourites: P -> Result<seq<Entry>, Failure>, stamp: string -> Result<int, Failure>,
                          enabled: bool, db: Db, m: string)
    ensures Registered(sourcePk, ext, service, login, favourites, stamp, enabled).update(db, m) ==
      Update(sourcePk, service, login, favourites, stamp, m)
  {
  }
}

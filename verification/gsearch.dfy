/**
 * The Google search-history provider: searches and the result pages visited
 * from them, read from one RSS feed. A result is linked to its search through
 * the search's source id, which ends with the search's guid.
 */
module GSearch {
  import opened Wrappers
  import opened Failures
  import opened Values
  import opened Strings
  import opened Timeline
  import opened Records
  import opened Externals
  import Pipeline
  import Scans

  const EngineName: string := "SearchEngine"
  const SearchName: string := "WebSearch"
  const ResultName: string := "WebSearchResult"

  /** The search models: automatic key, other fields in declaration order. Only searches are followed. */
  const SearchCls: ModelCls := ModelCls(SearchName, "id", ["engine", "query"], None, true)
  const ResultCls: ModelCls := ModelCls(ResultName, "id", ["search", "title", "url"], None, true)

  /** The part of a history guid's path that is cut out. */
  const HistoryPath: string := "/searchhistory/"

  /** The search engine the provider works for, as its row was read when the provider was made. */
  datatype Engine = Engine(pk: string, name: string)

  /**
   * `SearchEngine.objects.get(name="Google")`, which the constructor runs: the
   * one stored engine of that name. None raises DoesNotExist, several raise
   * MultipleObjectsReturned.
   */
  function GetEngine(rows: seq<Obj>, name: string): (r: Result<Engine, Failure>)
    ensures r.Ok? <==> |RowsWhere(rows, EngineName, "name", Str(name))| == 1
    ensures r.Ok? ==> r.value.name == name
    ensures r.Ok? ==> exists o :: (o in rows && o.cls.name == EngineName && o.pk == Some(r.value.pk) &&
      Has(o.fields, "name", Str(name)))
    ensures r.Err? && r.error.DoesNotExist? <==>
      forall o :: o in rows ==> !(o.cls.name == EngineName && o.pk.Some? && Has(o.fields, "name", Str(name)))
  {
    var o :- GetWhere(rows, EngineName, "name", Str(name));
    Ok(Engine(o.pk.value, name))
  }

  /** The registered models. */
  datatype Model = SearchModel | ResultModel

  /** The engine's name, read off a record's `engine` value; only the provider's own engine is ever put there. */
  function EngineNameOf(engine: Engine, v: Value): (r: Result<string, Failure>)
    ensures r.Ok? <==> v == Ref(EngineName, engine.pk)
    ensures r.Ok? ==> r.value == engine.name
  {
    if v == Ref(EngineName, engine.pk) then Ok(engine.name) else Err(AttributeError("name"))
  }

  /**
   * `source_id`: for a search, its engine's name, its query and its guid
   * joined by ':'; for a result, the md5 of its url. The fields are read in
   * that order, a missing one raising KeyError, and only text can be joined
   * or hashed.
   */
  function SourceId(m: Model, engine: Engine, ext: Externals, extra: Data): (r: Result<string, Failure>)
    ensures m.SearchModel? && r.Ok? ==> Has(extra, "engine", Ref(EngineName, engine.pk))
    ensures m.SearchModel? && r.Ok? ==> "query" in extra && extra["query"].Str? && "guid" in extra && extra["guid"].Str?
    ensures m.SearchModel? && r.Ok? ==> r.value == engine.name + ":" + extra["query"].s + ":" + extra["guid"].s
    ensures m.ResultModel? ==> (r.Ok? <==> "url" in extra && extra["url"].Str?)
    ensures m.ResultModel? && r.Ok? ==> r.value == ext.md5(extra["url"].s)
    ensures "engine" !in extra && m.SearchModel? ==> r == Err(KeyError("engine"))
  {
    match m
    case SearchModel =>
      var v :- Get(extra, "engine");
      var name :- EngineNameOf(engine, v);
      var q :- Get(extra, "query");
      var g :- Get(extra, "guid");
      var query :- AsText(q);
      var guid :- AsText(g);
      JoinSmall(name, query, guid, ":");
      Ok(Join([name, query, guid], ":"))
    case ResultModel =>
      var u :- Get(extra, "url");
      var url :- AsText(u);
      Ok(ext.md5(url))
  }

  /** A search's source id ends with its guid: this is what lets its results find it. */
  lemma SearchIdEndsWithGuid(engine: Engine, ext: Externals, extra: Data)
    requires SourceId(SearchModel, engine, ext, extra).Ok?
    ensures EndsWith(SourceId(SearchModel, engine, ext, extra).value, extra["guid"].s)
  {
    var s := SourceId(SearchModel, engine, ext, extra).value;
    var g := extra["guid"].s;
    var p := engine.name + ":" + extra["query"].s + ":";
    assert s == p + g;
    assert s[|s| - |g|..] == g;
  }

  /** `source_id` as the pipeline calls it, on the record's class. */
  function ClsSourceId(engine: Engine, ext: Externals, cls: ModelCls, extra: Data): (r: Result<string, Failure>)
    ensures cls.name == SearchName ==> r == SourceId(SearchModel, engine, ext, extra)
    ensures cls.name == ResultName ==> r == SourceId(ResultModel, engine, ext, extra)
  {
    if cls.name == SearchName then SourceId(SearchModel, engine, ext, extra)
    else if cls.name == ResultName then SourceId(ResultModel, engine, ext, extra)
    else Err(TypeError("source_id returned None"))
  }

  /** `get_default_fields`: a result's base fields without its first `search` field, the base fields otherwise. */
  function DefaultFields(cls: ModelCls): (r: seq<string>)
    ensures cls.name != ResultName ==> r == Pipeline.BaseDefaultFields(cls)
    ensures cls.name == ResultName ==> forall f :: f in r ==> f in cls.fields
    ensures cls.name == ResultName && "search" !in cls.fields ==> r == cls.fields
  {
    if cls.name == ResultName then Pipeline.RemoveFirst(Pipeline.BaseDefaultFields(cls), "search")
    else Pipeline.BaseDefaultFields(cls)
  }

  /** A result's default fields are its title and url: the search link is left to `pre_handle_item_created`. */
  lemma ResultDefaultFields()
    ensures DefaultFields(ResultCls) == ["title", "url"]
  {
    assert ResultCls.fields[0] == "search" && ResultCls.fields[..0] == [];
    assert ResultCls.fields[1..] == ["title", "url"];
  }

  /** An entry of the search-history feed. */
  datatype FeedEntry = FeedEntry(
    terms: seq<string>,  // the terms of its tags, in order
    guid: string,
    title: string,
    updated: int,        // `updated_parsed`, in UTC
    queryGuid: string,   // `smh:query_guid`, present on results
    link: string)

  /** Whether an entry's first tag is `term`; an entry without tags raises IndexError. */
  function FirstTermIs(term: string): FeedEntry -> Result<bool, Failure> {
    (e: FeedEntry) => if |e.terms| == 0 then Err(IndexError("list index out of range")) else Ok(e.terms[0] == term)
  }

  /** The search guid: the path of the entry's guid url (`pathOf`, `urlsplit(...)[2]`) with "/searchhistory/" removed. */
  function SearchGuid(e: FeedEntry, pathOf: string -> string): string {
    RemoveAll(pathOf(e.guid), HistoryPath)
  }

  /** The candidate record of a search entry. */
  function SearchCandidate(engine: Engine, pathOf: string -> string): FeedEntry -> Data {
    (e: FeedEntry) => map["engine" := Ref(EngineName, engine.pk), "guid" := Str(SearchGuid(e, pathOf)),
                          "query" := Str(e.title), "timestamp" := Time(e.updated)]
  }

  /** The candidate record of a result entry. */
  function ResultCandidate(): FeedEntry -> Data {
    (e: FeedEntry) => map["guid" := Str(e.queryGuid), "title" := Str(e.title), "url" := Str(e.link)]
  }

  /** `update_websearch`: the entries tagged "web query", in feed order. */
  function UpdateWebsearch(entries: seq<FeedEntry>, engine: Engine, pathOf: string -> string): Result<seq<Data>, Failure> {
    Scans.KeepMap(entries, FirstTermIs("web query"), SearchCandidate(engine, pathOf))
  }

  /** `update_websearchresult`: the entries tagged "web result", in feed order. */
  function UpdateWebsearchResult(entries: seq<FeedEntry>): Result<seq<Data>, Failure> {
    Scans.KeepMap(entries, FirstTermIs("web result"), ResultCandidate())
  }

  /** A search candidate's source id is its engine's name, the entry's title and its search guid. */
  lemma SearchCandidateSourceId(engine: Engine, pathOf: string -> string, ext: Externals, e: FeedEntry)
    ensures SourceId(SearchModel, engine, ext, SearchCandidate(engine, pathOf)(e)) ==
            Ok(engine.name + ":" + e.title + ":" + SearchGuid(e, pathOf))
  {
    var c := SearchCandidate(engine, pathOf)(e);
    assert Has(c, "engine", Ref(EngineName, engine.pk));
    assert SourceId(SearchModel, engine, ext, c).Ok?;
  }

  /**
   * Of `update_websearch`: it fails exactly when an entry has no tag, and
   * otherwise the searches are the entries whose first tag is "web query".
   */
  lemma UpdateWebsearchKeeps(entries: seq<FeedEntry>, engine: Engine, pathOf: string -> string)
    ensures UpdateWebsearch(entries, engine, pathOf).Ok? <==> forall i :: 0 <= i < |entries| ==> |entries[i].terms| > 0
    ensures UpdateWebsearch(entries, engine, pathOf).Ok? ==> forall c :: c in UpdateWebsearch(entries, engine, pathOf).value ==>
      exists e :: e in entries && e.terms[0] == "web query" && c == SearchCandidate(engine, pathOf)(e)
    ensures UpdateWebsearch(entries, engine, pathOf).Ok? ==> forall i :: 0 <= i < |entries| && entries[i].terms[0] == "web query" ==>
      SearchCandidate(engine, pathOf)(entries[i]) in UpdateWebsearch(entries, engine, pathOf).value
  {
    if UpdateWebsearch(entries, engine, pathOf).Ok? {
      Scans.KeepMapMembers(entries, FirstTermIs("web query"), SearchCandidate(engine, pathOf));
    }
  }

  /** Of `update_websearchresult`: the results are the entries whose first tag is "web result", in feed order. */
  lemma UpdateWebsearchResultKeeps(entries: seq<FeedEntry>, more: seq<FeedEntry>)
    ensures UpdateWebsearchResult(entries).Ok? <==> forall i :: 0 <= i < |entries| ==> |entries[i].terms| > 0
    ensures UpdateWebsearchResult(entries).Ok? ==> forall c :: c in UpdateWebsearchResult(entries).value ==>
      exists e :: e in entries && e.terms[0] == "web result" && c == ResultCandidate()(e)
    ensures UpdateWebsearchResult(entries).Ok? && UpdateWebsearchResult(more).Ok? ==>
      UpdateWebsearchResult(entries + more).value == UpdateWebsearchResult(entries).value + UpdateWebsearchResult(more).value
  {
    if UpdateWebsearchResult(entries).Ok? {
      Scans.KeepMapMembers(entries, FirstTermIs("web result"), ResultCandidate());
      Scans.KeepMapAppend(entries, more, FirstTermIs("web result"), ResultCandidate());
    }
  }

  /**
   * The search a result belongs to: the one WebSearch Item whose source id
   * ends with the result's guid. None raises ProviderException and several
   * raise MultipleObjectsReturned, which is not caught.
   */
  function SearchFor(items: seq<Item>, guid: string): (r: Result<Item, Failure>)
    ensures r.Ok? ==> r.value in items && r.value.ctype == SearchName && EndsWith(r.value.sourceId, guid)
    ensures r.Ok? ==> forall x :: x in items && x.ctype == SearchName && EndsWith(x.sourceId, guid) ==> x == r.value
    ensures (r.Err? && r.error.ProviderException?) <==>
      forall x :: x in items ==> !(x.ctype == SearchName && EndsWith(x.sourceId, guid))
    ensures r.Err? && r.error.ProviderException? ==> r.error.msg == "Could not find WebSearch given by guid " + guid
    ensures r.Err? ==> r.error.ProviderException? || r.error.MultipleObjectsReturned?
  {
    var m := Select(items, (x: Item) => x.ctype == SearchName && EndsWith(x.sourceId, guid));
    if |m| == 0 then Err(ProviderException("Could not find WebSearch given by guid " + guid))
    else if |m| == 1 then Ok(m[0])
    else
      assert m[0] in m;
      Err(MultipleObjectsReturned("Item"))
  }

  /** No stored search Item's source id ends with the guid. */
  predicate NoSearchFor(items: seq<Item>, guid: string) {
    forall x :: x in items ==> !(x.ctype == SearchName && EndsWith(x.sourceId, guid))
  }

  /**
   * `pre_handle_item_created`: a new result gets the search whose Item its
   * guid names, read back from its row; nothing is saved. Anything else is
   * left alone.
   */
  function PreHandleItemCreated(db: Db, o: Obj, data: Data): (r: Result<(Db, Obj), Failure>)
    ensures o.cls.name != ResultName ==> r == Ok((db, o))
    ensures r.Ok? ==> r.value.0 == db
    ensures o.cls.name == ResultName && r.Ok? ==> "guid" in data && data["guid"].Str?
    ensures o.cls.name == ResultName && r.Ok? ==> exists x :: (x in db.items && x.ctype == SearchName &&
      EndsWith(x.sourceId, data["guid"].s) && Records.Fetch(db.rows, SearchName, x.objectId).Some? &&
      r.value.1 == o.(fields := o.fields["search" := Ref(SearchName, x.objectId)]))
    ensures o.cls.name == ResultName && "guid" in data && data["guid"].Str? && NoSearchFor(db.items, data["guid"].s) ==>
      r == Err(ProviderException("Could not find WebSearch given by guid " + data["guid"].s))
  {
    if o.cls.name != ResultName then Ok((db, o))
    else
      var g :- Get(data, "guid");
      var guid :- AsText(g);
      var it :- SearchFor(db.items, guid);
      match Records.Fetch(db.rows, SearchName, it.objectId)
      // `websearch.object` is None, which the non-null `search` key refuses
      case None => Err(ValueError("search"))
      case Some(_) => Ok((db, o.(fields := o.fields["search" := Ref(SearchName, it.objectId)])))
  }

  /**
   * A result whose guid is the guid of a stored search, and of no other, is
   * linked to that search.
   */
  lemma ResultFindsItsSearch(db: Db, o: Obj, data: Data, x: Item, guid: string)
    requires o.cls.name == ResultName && Has(data, "guid", Str(guid))
    requires Valid(db) && x in db.items && x.ctype == SearchName && EndsWith(x.sourceId, guid)
    requires forall y :: y in db.items && y.ctype == SearchName && EndsWith(y.sourceId, guid) ==> y == x
    requires Records.Fetch(db.rows, SearchName, x.objectId).Some?
    ensures PreHandleItemCreated(db, o, data) == Ok((db, o.(fields := o.fields["search" := Ref(SearchName, x.objectId)])))
  {
    var r := SearchFor(db.items, guid);
    assert r.Ok? ==> r.value == x;
    assert r.Err? ==> r.error.MultipleObjectsReturned?;
    var m := Select(db.items, (y: Item) => y.ctype == SearchName && EndsWith(y.sourceId, guid));
    assert Distinct(db.items);
    SelectDistinct(db.items, (y: Item) => y.ctype == SearchName && EndsWith(y.sourceId, guid));
    assert x in m;
    forall k | 0 <= k < |m| ensures m[k] == x { assert m[k] in m; }
    AtMostOne(m, x);
  }

  /** `GoogleSearchProvider.enabled`: both Google settings are defined. */
  predicate Enabled(hasUsername: bool, hasPassword: bool) {
    hasUsername && hasPassword
  }

  /** The updater of each registered model, on the feed fetched for it. */
  function Update(engine: Engine, pathOf: string -> string, feed: string -> Result<seq<FeedEntry>, Failure>, model: string)
    : Result<seq<Data>, Failure>
  {
    if model == SearchKey then
      var entries :- feed(model);
      UpdateWebsearch(entries, engine, pathOf)
    else if model == ResultKey then
      var entries :- feed(model);
      UpdateWebsearchResult(entries)
    else Err(AttributeError("update_" + model))
  }

  /** The registry keys of the two models. */
  const SearchKey := "websearch"
  const ResultKey := "websearchresult"

  /** The registry keys are the lower-case class names, which differ. */
  lemma ModelNames()
    ensures SearchCls.name == SearchName && ResultCls.name == ResultName
    ensures SearchKey == SearchKey && ResultKey == ResultKey
  {
  }

  /** The provider before its constructor registers the models. */
  function Unregistered(engine: Engine, ext: Externals, pathOf: string -> string,
                        feed: string -> Result<seq<FeedEntry>, Failure>, enabled: bool): Pipeline.Provider
  {
    Pipeline.Provider(
      "GoogleSearchProvider", enabled, {"update_" + Lower(SearchName), "update_" + Lower(ResultName)}, [],
      (cls: ModelCls, d: Data) => ClsSourceId(engine, ext, cls, d),
      DefaultFields,
      (db: Db, m: string) => Update(engine, pathOf, feed, m),
      (db: Db, m: string, cls: ModelCls, d: Data) => Err(NotImplemented),
      (db: Db, o: Obj, m: string, cls: ModelCls, d: Data, created: bool) => Ok(db),
      (db: Db, o: Obj, d: Data) => PreHandleItemCreated(db, o, d))
  }

  /** The provider's hooks never touch the database. */
  lemma HooksKeepValid(engine: Engine, ext: Externals, pathOf: string -> string,
                       feed: string -> Result<seq<FeedEntry>, Failure>, enabled: bool, registry: seq<Pipeline.Registration>)
    ensures Pipeline.KeepsValid(Unregistered(engine, ext, pathOf, feed, enabled).(registry := registry))
  {
    var p := Unregistered(engine, ext, pathOf, feed, enabled).(registry := registry);
    forall db, o, d | Valid(db) && p.preHandleItemCreated(db, o, d).Ok?
      ensures Valid(p.preHandleItemCreated(db, o, d).value.0)
    {
      assert p.preHandleItemCreated(db, o, d) == PreHandleItemCreated(db, o, d);
    }
  }

  /** The provider once its engine is known: both models registered, searches first. */
  function Registered(engine: Engine, ext: Externals, pathOf: string -> string,
                      feed: string -> Result<seq<FeedEntry>, Failure>, enabled: bool): (p: Pipeline.Provider)
    ensures Pipeline.QueuesTwo(p, SearchCls, ResultCls)
    ensures Pipeline.KeepsValid(p) && p.enabled == enabled
  {
    var base := Unregistered(engine, ext, pathOf, feed, enabled);
    ModelNames();
    var p := Pipeline.RegisterTwo(base, SearchCls, 0, ResultCls, 1);
    HooksKeepValid(engine, ext, pathOf, feed, enabled, p.registry);
    p
  }

  /**
   * `GoogleSearchProvider()`: the engine row is read first, and its absence
   * fails the construction; searches are registered at priority 0 and results
   * at priority 1, so a run stores the searches before the results look them up.
   */
  function Provider(rows: seq<Obj>, ext: Externals, pathOf: string -> string,
                    feed: string -> Result<seq<FeedEntry>, Failure>, enabled: bool): (r: Result<Pipeline.Provider, Failure>)
    ensures r.Err? <==> GetEngine(rows, "Google").Err?
    ensures r.Ok? ==> Pipeline.QueuesTwo(r.value, SearchCls, ResultCls)
    ensures r.Ok? ==> Pipeline.KeepsValid(r.value) && r.value.enabled == enabled
  {
    match GetEngine(rows, "Google")
    case Err(e) => Err(e)
    case Ok(engine) => Ok(Registered(engine, ext, pathOf, feed, enabled))
  }
}

/**
 * The Flickr provider: the photos and photo sets of one account. Its updaters
 * turn listing pages into candidate records, its source ids are
 * "flickr:<id>", a newly created photo has its EXIF data fetched and stored,
 * and a handled set links the stored photos it lists.
 */
module Flickr {
  import opened Wrappers
  import opened Failures
  import opened Values
  import opened Strings
  import opened Tables
  import opened Timeline
  import opened Records
  import opened Externals
  import Pipeline
  import Scans

  const PhotoName: string := "Photo"
  const PhotosetName: string := "Photoset"

  /** The photo backend's two classes: key field, other concrete fields in declaration order. */
  const PhotoCls: ModelCls := ModelCls(PhotoName, "photo_id",
    ["farm_id", "server_id", "secret", "taken_by", "cc_license", "title", "description",
     "comment_count", "photoset", "date_uploaded", "date_updated", "_exif"], None, true)
  const PhotosetCls: ModelCls := ModelCls(PhotosetName, "photoset_id",
    ["farm_id", "server_id", "secret", "title", "description", "url"], None, true)

  /** The two models the provider registers. */
  datatype Model = PhotoModel | PhotosetModel

  function IdField(m: Model): string {
    match m
    case PhotoModel => "photo_id"
    case PhotosetModel => "photoset_id"
  }

  /**
   * `source_id`: "flickr" and the record's Flickr id joined by ':'. A record
   * without the id raises KeyError, and a non-string id cannot be joined.
   */
  function SourceId(m: Model, extra: Data): (r: Result<string, Failure>)
    ensures IdField(m) !in extra ==> r == Err(KeyError(IdField(m)))
    ensures r.Ok? <==> IdField(m) in extra && extra[IdField(m)].Str?
    ensures r.Ok? ==> r.value == "flickr:" + extra[IdField(m)].s
  {
    var v :- Get(extra, IdField(m));
    var id :- AsText(v);
    JoinSmall("flickr", id, "", ":");
    Ok(Join(["flickr", id], ":"))
  }

  /**
   * The Flickr id can be read back from the source id, so records of one
   * model with different ids never share an Item. A photo and a set with the
   * same id do share one: `find` does not look at the content type.
   */
  lemma SourceIdInjective(m: Model, a: Data, b: Data)
    requires SourceId(m, a).Ok? && SourceId(m, b).Ok?
    ensures SourceId(m, a) == SourceId(m, b) <==> a[IdField(m)] == b[IdField(m)]
  {
    var x, y := a[IdField(m)].s, b[IdField(m)].s;
    if SourceId(m, a) == SourceId(m, b) {
      assert x == ("flickr:" + x)[7..];
      assert y == ("flickr:" + y)[7..];
    }
  }

  /** `source_id` as the pipeline calls it, on the record's class. */
  function ClsSourceId(cls: ModelCls, extra: Data): (r: Result<string, Failure>)
    ensures cls.name == PhotoName ==> r == SourceId(PhotoModel, extra)
    ensures cls.name == PhotosetName ==> r == SourceId(PhotosetModel, extra)
  {
    if cls.name == PhotoName then SourceId(PhotoModel, extra)
    else if cls.name == PhotosetName then SourceId(PhotosetModel, extra)
    else Err(TypeError("source_id returned None"))
  }

  /** A tag as `photos.getInfo` lists it. */
  datatype Tag = Tag(content: string, machine: bool)

  /** The contents of the tags that are not machine tags, in listing order. */
  function PlainTags(tags: seq<Tag>): (r: seq<string>)
    ensures forall x :: x in r <==> exists t :: t in tags && !t.machine && t.content == x
    decreases |tags|
  {
    if |tags| == 0 then []
    else
      var rest := PlainTags(tags[1..]);
      assert forall t :: t in tags <==> t == tags[0] || t in tags[1..];
      if tags[0].machine then rest else [tags[0].content] + rest
  }

  /** The list without repetitions, each at its first occurrence. */
  function Dedup(xs: seq<string>): (r: seq<string>)
    ensures forall x :: x in r <==> x in xs
    ensures forall i, j :: 0 <= i < j < |r| ==> r[i] != r[j]
    decreases |xs|
  {
    if |xs| == 0 then []
    else
      var n := |xs| - 1;
      var rest := Dedup(xs[..n]);
      assert forall x :: x in xs <==> x in xs[..n] || x == xs[n];
      if xs[n] in rest then rest else rest + [xs[n]]
  }

  /** `convert_tags`: the distinct contents of the non-machine tags, separated by spaces. */
  function ConvertTags(tags: seq<Tag>): string {
    Join(Dedup(PlainTags(tags)), " ")
  }

  /**
   * Splitting the converted text on spaces gives back every non-machine tag
   * content exactly once and nothing else, provided no content holds a space
   * and at least one tag is not a machine tag.
   */
  lemma ConvertTagsPieces(tags: seq<Tag>)
    requires forall t :: t in tags ==> ' ' !in t.content
    requires exists t :: t in tags && !t.machine
    ensures var pieces := Split(ConvertTags(tags), ' ');
      (forall x :: x in pieces <==> exists t :: t in tags && !t.machine && t.content == x) &&
      (forall i, j :: 0 <= i < j < |pieces| ==> pieces[i] != pieces[j])
  {
    var u := Dedup(PlainTags(tags));
    var t :| t in tags && !t.machine;
    assert t.content in u;
    forall i | 0 <= i < |u| ensures ' ' !in u[i] {
      assert u[i] in PlainTags(tags);
    }
    assert " " == [' '];
    SplitOfJoin(u, ' ');
  }

  /**
   * `get_default_fields`: a photo's non-key fields except `_exif`, so that
   * handling a photo again never overwrites its stored EXIF data; a set's
   * non-key fields.
   */
  function DefaultFields(m: Model, cls: ModelCls): (r: seq<string>)
    ensures m.PhotosetModel? ==> r == Pipeline.BaseDefaultFields(cls)
    ensures m.PhotoModel? ==> forall f :: f in r <==> f in cls.fields && f != "_exif"
  {
    match m
    case PhotoModel => Pipeline.Without(Pipeline.BaseDefaultFields(cls), "_exif")
    case PhotosetModel => Pipeline.BaseDefaultFields(cls)
  }

  /** A photo of the `people.getPublicPhotos` listing, with what `photos.getInfo` reports for it. */
  datatype PhotoEntry = PhotoEntry(
    id: string, license: string, secret: string, taken: int,
    server: int, farm: int, owner: string, title: string, description: string,
    comments: int, posted: int, updated: int, tags: seq<Tag>)

  /** One response of a paged listing: the page count it reports and the page's entries. */
  datatype Page<T> = Page(pages: int, entries: seq<T>)

  /**
   * The page loop of both listings. The k-th response answers the request for
   * page `first + k`; responses are read while the page number does not
   * exceed the count the response reports, and the loop ends at the first
   * one where it does. The result is the number of pages read.
   */
  function PagesRead<T>(responses: seq<Page<T>>, first: int): (n: nat)
    ensures n <= |responses|
    ensures forall k :: 0 <= k < n ==> first + k <= responses[k].pages
    ensures n < |responses| ==> first + n > responses[n].pages
    decreases |responses|
  {
    if |responses| == 0 || first > responses[0].pages then 0
    else 1 + PagesRead(responses[1..], first + 1)
  }

  /** Responses after the one that ends the loop are never looked at. */
  lemma {:induction false} PagesReadStops<T>(responses: seq<Page<T>>, more: seq<Page<T>>, first: int)
    requires PagesRead(responses, first) < |responses|
    ensures PagesRead(responses + more, first) == PagesRead(responses, first)
    decreases |responses|
  {
    if first <= responses[0].pages {
      assert (responses + more)[1..] == responses[1..] + more;
      PagesReadStops(responses[1..], more, first + 1);
    }
  }

  /** The fields of a photo's candidate record, with its licence url. */
  function PhotoFields(e: PhotoEntry, url: string, localTime: int -> int): (r: Data)
    ensures Has(r, "photo_id", Str(e.id)) && Has(r, "timestamp", Time(e.taken))
    ensures Has(r, "photoset", Null) && Has(r, "tags", Str(ConvertTags(e.tags))) && Has(r, "cc_license", Str(url))
  {
    map[
      "photo_id" := Str(e.id), "cc_license" := Str(url), "secret" := Str(e.secret),
      "server_id" := Int(e.server), "farm_id" := Int(e.farm), "taken_by" := Str(e.owner),
      "title" := Str(e.title), "description" := Str(e.description), "comment_count" := Int(e.comments),
      "date_uploaded" := Time(localTime(e.posted)), "date_updated" := Time(localTime(e.updated)),
      "tags" := Str(ConvertTags(e.tags)), "timestamp" := Time(e.taken), "photoset" := Null]
  }

  /**
   * The candidate record `update_photo` builds for a photo; `localTime` is
   * `datetime.fromtimestamp`. A licence id the licence list lacks raises KeyError.
   */
  function PhotoCandidate(e: PhotoEntry, licenses: Table<string>, localTime: int -> int): (r: Result<Data, Failure>)
    ensures r.Err? <==> Lookup(licenses, e.license).None?
    ensures r.Err? ==> r.error == KeyError(e.license)
    ensures r.Ok? ==> r.value == PhotoFields(e, Lookup(licenses, e.license).value, localTime)
  {
    match Lookup(licenses, e.license)
    case None => Err(KeyError(e.license))
    case Some(url) => Ok(PhotoFields(e, url, localTime))
  }

  /** A photo taken before the checkpoint ends its page. */
  function IsOld(checkpoint: int): PhotoEntry -> bool {
    (e: PhotoEntry) => e.taken < checkpoint
  }

  /** The candidate of each photo, against one licence list. */
  function Candidate(licenses: Table<string>, localTime: int -> int): PhotoEntry -> Result<Data, Failure> {
    (e: PhotoEntry) => PhotoCandidate(e, licenses, localTime)
  }

  /** The photos of each page. */
  function Entries(pages: seq<Page<PhotoEntry>>): (r: seq<seq<PhotoEntry>>)
    ensures |r| == |pages| && forall k :: 0 <= k < |pages| ==> r[k] == pages[k].entries
  {
    seq(|pages|, k requires 0 <= k < |pages| => pages[k].entries)
  }

  /**
   * `update_photo`: the candidates of every page read, in page order, each
   * page up to its first photo taken before the checkpoint
   * `get_last_update_of_model(Photo)`.
   */
  function UpdatePhoto(responses: seq<Page<PhotoEntry>>, licenses: Table<string>, checkpoint: int, localTime: int -> int)
    : Result<seq<Data>, Failure>
  {
    Scans.TakeMapPages(Entries(responses[..PagesRead(responses, 1)]), IsOld(checkpoint), Candidate(licenses, localTime))
  }

  /** Every candidate is a photo taken no earlier than the checkpoint and belongs to no set yet. */
  lemma UpdatePhotoNew(responses: seq<Page<PhotoEntry>>, licenses: Table<string>, checkpoint: int, localTime: int -> int)
    requires UpdatePhoto(responses, licenses, checkpoint, localTime).Ok?
    ensures forall c: Data :: c in UpdatePhoto(responses, licenses, checkpoint, localTime).value ==>
      Has(c, "photoset", Null) && "timestamp" in c && c["timestamp"].Time? && c["timestamp"].t >= checkpoint
  {
    var pages := Entries(responses[..PagesRead(responses, 1)]);
    Scans.TakeMapPagesFrom(pages, IsOld(checkpoint), Candidate(licenses, localTime));
    forall c: Data | c in UpdatePhoto(responses, licenses, checkpoint, localTime).value
      ensures Has(c, "photoset", Null) && "timestamp" in c && c["timestamp"].Time? && c["timestamp"].t >= checkpoint
    {
      var e :| !IsOld(checkpoint)(e) && Candidate(licenses, localTime)(e) == Ok(c);
      assert c == PhotoFields(e, Lookup(licenses, e.license).value, localTime);
    }
  }

  /** Of `update_photo`: every page up to the first exhausted one is read, and an old photo stops only its page. */
  lemma UpdatePhotoImports(responses: seq<Page<PhotoEntry>>, licenses: Table<string>, checkpoint: int,
                           localTime: int -> int, j: nat, i: nat)
    requires UpdatePhoto(responses, licenses, checkpoint, localTime).Ok?
    requires j < |responses| && forall k :: 0 <= k <= j ==> 1 + k <= responses[k].pages
    requires i < |responses[j].entries| && forall k :: 0 <= k <= i ==> responses[j].entries[k].taken >= checkpoint
    ensures PhotoCandidate(responses[j].entries[i], licenses, localTime).Ok?
    ensures PhotoCandidate(responses[j].entries[i], licenses, localTime).value in
            UpdatePhoto(responses, licenses, checkpoint, localTime).value
  {
    var n := PagesRead(responses, 1);
    assert j < n;
    var pages := Entries(responses[..n]);
    assert pages[j] == responses[j].entries;
    Scans.TakeMapPagesTakes(pages, IsOld(checkpoint), Candidate(licenses, localTime), j, i);
  }

  /** The loop ends at the first response whose page number exceeds its page count: responses after it do not matter. */
  lemma UpdatePhotoStops(responses: seq<Page<PhotoEntry>>, more: seq<Page<PhotoEntry>>, licenses: Table<string>,
                         checkpoint: int, localTime: int -> int)
    requires exists k :: 0 <= k < |responses| && 1 + k > responses[k].pages
    ensures UpdatePhoto(responses + more, licenses, checkpoint, localTime) ==
            UpdatePhoto(responses, licenses, checkpoint, localTime)
  {
    var n := PagesRead(responses, 1);
    var k :| 0 <= k < |responses| && 1 + k > responses[k].pages;
    assert n <= k;
    PagesReadStops(responses, more, 1);
    assert (responses + more)[..n] == responses[..n];
  }

  /** A set of the `photosets.getList` listing. */
  datatype SetEntry = SetEntry(id: string, secret: string, server: int, farm: int, title: string, description: string)

  /** The candidate record `update_photoset` builds for a set, stamped with the current time. */
  function SetCandidate(e: SetEntry, photosUrl: string, now: int): (r: Data)
    ensures Has(r, "photoset_id", Str(e.id)) && Has(r, "timestamp", Time(now))
    ensures Has(r, "url", Str(photosUrl + "/sets/" + e.id + "/"))
  {
    map[
      "photoset_id" := Str(e.id), "timestamp" := Time(now), "url" := Str(photosUrl + "/sets/" + e.id + "/"),
      "secret" := Str(e.secret), "server_id" := Int(e.server), "farm_id" := Int(e.farm),
      "title" := Str(e.title), "description" := Str(e.description)]
  }

  /** `update_photoset`: one candidate per listed set, in listing order. */
  function UpdatePhotoset(sets: seq<SetEntry>, photosUrl: string, now: int): (r: seq<Data>)
    ensures |r| == |sets|
    ensures forall i :: 0 <= i < |sets| ==> r[i] == SetCandidate(sets[i], photosUrl, now)
  {
    seq(|sets|, i requires 0 <= i < |sets| => SetCandidate(sets[i], photosUrl, now))
  }

  /**
   * A photo candidate carries the class's primary key and every default
   * field, so `handle_default` resolves it by key and never fails to read a
   * field; its source id is the photo's Flickr id.
   */
  lemma PhotoCandidateComplete(e: PhotoEntry, url: string, localTime: int -> int)
    ensures var c := PhotoFields(e, url, localTime);
      PhotoCls.pkName in c && (forall f :: f in DefaultFields(PhotoModel, PhotoCls) ==> f in c) &&
      SourceId(PhotoModel, c) == Ok("flickr:" + e.id)
  {
    var c := PhotoFields(e, url, localTime);
    assert forall f :: f in PhotoCls.fields && f != "_exif" ==> f in c;
  }

  /** The same for a set candidate. */
  lemma SetCandidateComplete(s: SetEntry, photosUrl: string, now: int)
    ensures var c := SetCandidate(s, photosUrl, now);
      PhotosetCls.pkName in c && (forall f :: f in DefaultFields(PhotosetModel, PhotosetCls) ==> f in c) &&
      SourceId(PhotosetModel, c) == Ok("flickr:" + s.id)
  {
    var c := SetCandidate(s, photosUrl, now);
    assert forall f :: f in PhotosetCls.fields ==> f in c;
  }

  /** An EXIF entry of `photos.getExif`: its tag name, raw value and optional cleaned value. */
  datatype ExifEntry = ExifEntry(tag: string, raw: string, clean: Option<string>)

  function ExifValue(e: ExifEntry): string {
    match e.clean
    case Some(c) => c
    case None => e.raw
  }

  /**
   * `convert_exif`: each tag name with its cleaned value when there is one and
   * its raw value otherwise; a name listed twice keeps its last value.
   */
  function ConvertExif(entries: seq<ExifEntry>): (r: map<string, string>)
    decreases |entries|
  {
    if |entries| == 0 then map[]
    else
      var n := |entries| - 1;
      ConvertExif(entries[..n])[entries[n].tag := ExifValue(entries[n])]
  }

  /** The converted dictionary has exactly the listed names. */
  lemma {:induction false} ConvertExifNames(entries: seq<ExifEntry>)
    ensures ConvertExif(entries).Keys == set i | 0 <= i < |entries| :: entries[i].tag
    decreases |entries|
  {
    if |entries| > 0 {
      var n := |entries| - 1;
      ConvertExifNames(entries[..n]);
      var prev := ConvertExif(entries[..n]);
      forall l | l in set i | 0 <= i < |entries| :: entries[i].tag ensures l in ConvertExif(entries) {
        var i :| 0 <= i < |entries| && entries[i].tag == l;
        if i < n {
          assert entries[..n][i] == entries[i];
        }
      }
      forall l | l in prev ensures l in set i | 0 <= i < |entries| :: entries[i].tag {
        var i :| 0 <= i < n && entries[..n][i].tag == l;
        assert entries[i].tag == l;
      }
    }
  }

  /** Each name has the value of its last entry. */
  lemma {:induction false} ConvertExifLast(entries: seq<ExifEntry>, i: nat)
    requires i < |entries| && forall j :: i < j < |entries| ==> entries[j].tag != entries[i].tag
    ensures entries[i].tag in ConvertExif(entries) && ConvertExif(entries)[entries[i].tag] == ExifValue(entries[i])
    decreases |entries|
  {
    var n := |entries| - 1;
    if i < n {
      assert entries[..n][i] == entries[i];
      assert forall j :: i < j < n ==> entries[..n][j] == entries[j];
      ConvertExifLast(entries[..n], i);
    }
  }

  /**
   * `pre_handle_item_created`: a new photo gets the EXIF data `exifOf` fetches
   * for its id and secret, stored as JSON in `_exif`, and is saved, which
   * fires the save signal. A new set is left as it is.
   */
  function PreHandleItemCreated(schema: Schema, ext: Externals, exifOf: (Value, Value) -> Result<seq<ExifEntry>, Failure>,
                                now: int, db: Db, o: Obj, data: Data): (r: Result<(Db, Obj), Failure>)
    ensures o.cls.name != PhotoName ==> r == Ok((db, o))
    ensures o.cls.name == PhotoName && r.Ok? ==>
      "photo_id" in data && "secret" in data && exifOf(data["photo_id"], data["secret"]).Ok? &&
      Has(r.value.1.fields, "_exif", Str(ext.jsonDumps(ConvertExif(exifOf(data["photo_id"], data["secret"]).value)))) &&
      r.value.1.pk.Some? && Records.Fetch(r.value.0.rows, PhotoName, r.value.1.pk.value) == Some(r.value.1)
    ensures r.Ok? && Valid(db) ==> Valid(r.value.0)
  {
    if o.cls.name != PhotoName then Ok((db, o))
    else
      var id :- Get(data, "photo_id");
      var secret :- Get(data, "secret");
      var entries :- exifOf(id, secret);
      var o1 := o.(fields := o.fields["_exif" := Str(ext.jsonDumps(ConvertExif(entries)))]);
      SaveWithSignal(schema, db, o1, now)
  }

  /** The stored photo's EXIF data reads back as what was fetched, given that JSON round-trips. */
  lemma StoredExifReadsBack(schema: Schema, ext: Externals, exifOf: (Value, Value) -> Result<seq<ExifEntry>, Failure>,
                            now: int, db: Db, o: Obj, data: Data)
    requires JsonRoundTrips(ext)
    requires o.cls.name == PhotoName
    requires PreHandleItemCreated(schema, ext, exifOf, now, db, o, data).Ok?
    ensures var (db1, saved) := PreHandleItemCreated(schema, ext, exifOf, now, db, o, data).value;
      var row := Records.Fetch(db1.rows, PhotoName, saved.pk.value);
      row.Some? && "_exif" in row.value.fields && row.value.fields["_exif"].Str? &&
      row.value.fields["_exif"].s != "" &&
      ext.jsonLoads(row.value.fields["_exif"].s) == ConvertExif(exifOf(data["photo_id"], data["secret"]).value)
  {
  }

  /** Some row of `rows` has this key. */
  predicate HasKey(rows: seq<Obj>, key: (string, Option<string>)) {
    exists y :: y in rows && RowKey(y) == key
  }

  /**
   * `photoset.photos.add(photo)` for the stored photo with this id, if any:
   * the photo gets the set as its `photoset` and is saved, firing the save
   * signal. An id with no stored photo is skipped.
   */
  function LinkOne(schema: Schema, db: Db, setPk: string, id: string, now: int): (r: Result<Db, Failure>)
    ensures Records.Fetch(db.rows, PhotoName, id).None? ==> r == Ok(db)
    ensures r.Ok? ==> forall x :: x in r.value.rows ==> HasKey(db.rows, RowKey(x))
    ensures r.Ok? ==> forall x :: x in db.rows && RowKey(x) != (PhotoName, Some(id)) ==> x in r.value.rows
    ensures r.Ok? && Valid(db) ==> Valid(r.value)
    ensures r.Ok? && Records.Fetch(db.rows, PhotoName, id).Some? ==> Linked(r.value.rows, id, setPk)
  {
    match Records.Fetch(db.rows, PhotoName, id)
    case None => Ok(db)
    case Some(photo) =>
      var (db1, _) :- SaveWithSignal(schema, db, photo.(fields := photo.fields["photoset" := Ref(PhotosetName, setPk)]), now);
      Ok(db1)
  }

  /**
   * The photos with the listed ids, one after the other. No row is created,
   * so a listed id with no stored photo stays without one, and rows other
   * than the listed photos are kept.
   */
  function LinkPhotos(schema: Schema, db: Db, setPk: string, ids: seq<string>, now: int): (r: Result<Db, Failure>)
    ensures r.Ok? ==> forall x :: x in r.value.rows ==> HasKey(db.rows, RowKey(x))
    ensures r.Ok? ==> forall x :: x in db.rows && (x.cls.name != PhotoName || x.pk.None? || x.pk.value !in ids) ==>
      x in r.value.rows
    ensures r.Ok? && Valid(db) ==> Valid(r.value)
    decreases |ids|
  {
    if |ids| == 0 then Ok(db)
    else
      var db1 :- LinkOne(schema, db, setPk, ids[0], now);
      LinkPhotos(schema, db1, setPk, ids[1..], now)
  }

  /** Every listed id with a stored photo ends linked to the set. */
  lemma {:induction false} LinkPhotosLinks(schema: Schema, db: Db, setPk: string, ids: seq<string>, now: int)
    requires Valid(db) && LinkPhotos(schema, db, setPk, ids, now).Ok?
    ensures forall id :: id in ids && Records.Fetch(db.rows, PhotoName, id).Some? ==>
      Linked(LinkPhotos(schema, db, setPk, ids, now).value.rows, id, setPk)
    decreases |ids|
  {
    if |ids| > 0 {
      var db1 := LinkOne(schema, db, setPk, ids[0], now).value;
      var r := LinkPhotos(schema, db1, setPk, ids[1..], now).value;
      LinkPhotosLinks(schema, db1, setPk, ids[1..], now);
      forall id | id in ids && Records.Fetch(db.rows, PhotoName, id).Some? ensures Linked(r.rows, id, setPk) {
        if id == ids[0] && id !in ids[1..] {
          var x := Records.Fetch(db1.rows, PhotoName, id).value;
          assert x in r.rows;
          FetchStored(r.rows, x);
        } else if id != ids[0] {
          var x := Records.Fetch(db.rows, PhotoName, id).value;
          assert x in db1.rows;
          FetchStored(db1.rows, x);
        }
      }
    }
  }

  /** The stored photo with this id belongs to the set. */
  predicate Linked(rows: seq<Obj>, id: string, setPk: string) {
    Records.Fetch(rows, PhotoName, id).Some? && Has(Records.Fetch(rows, PhotoName, id).value.fields, "photoset", Ref(PhotosetName, setPk))
  }

  /** The ids a set's listing pages hold, page after page. */
  function ListedIds(pages: seq<Page<string>>): (r: seq<string>)
    ensures forall id :: id in r <==> exists k :: 0 <= k < |pages| && id in pages[k].entries
    decreases |pages|
  {
    if |pages| == 0 then []
    else
      assert forall k :: 1 <= k < |pages| ==> pages[k] == pages[1..][k - 1];
      pages[0].entries + ListedIds(pages[1..])
  }

  /**
   * `post_handle_default`: a handled set, new or not, links the stored photos
   * on every page of its `photosets.getPhotos` listing that was read. A photo
   * is left as it is.
   */
  function PostHandleDefault(schema: Schema, listing: string -> seq<Page<string>>, now: int, db: Db, o: Obj)
    : (r: Result<Db, Failure>)
    ensures o.cls.name != PhotosetName ==> r == Ok(db)
  {
    if o.cls.name != PhotosetName || o.pk.None? then Ok(db)
    else
      var pages := listing(o.pk.value);
      LinkPhotos(schema, db, o.pk.value, ListedIds(pages[..PagesRead(pages, 1)]), now)
  }

  /** `enabled`: the API key, user id and user name settings are all defined. */
  predicate Enabled(hasApiKey: bool, hasUserId: bool, hasUsername: bool) {
    hasApiKey && hasUserId && hasUsername
  }

  /** What the Flickr API answers during one run. */
  datatype Account = Account(
    photoPages: seq<Page<PhotoEntry>>,                     // people.getPublicPhotos, pages 1, 2, ...
    licenses: Table<string>,                               // photos.licenses.getInfo: licence id to url
    photosUrl: string,                                     // people.getInfo: the account's photos url
    sets: seq<SetEntry>,                                   // photosets.getList
    setPages: string -> seq<Page<string>>,                 // photosets.getPhotos of a set, pages 1, 2, ...
    exifOf: (Value, Value) -> Result<seq<ExifEntry>, Failure>) // photos.getExif of a photo id and secret

  /** The updater of each registered model; the photo checkpoint is the latest photo Item of any provenance. */
  function Update(a: Account, localTime: int -> int, epoch: int, now: int, db: Db, model: string): Result<seq<Data>, Failure> {
    if model == Lower(PhotoName) then
      UpdatePhoto(a.photoPages, a.licenses, LastUpdate(db.items, PhotoName, (x: Item) => true, epoch), localTime)
    else if model == Lower(PhotosetName) then Ok(UpdatePhotoset(a.sets, a.photosUrl, now))
    else Err(AttributeError("update_" + model))
  }

  /** The registry keys: the lower-case class names, which differ. */
  lemma ModelNames()
    ensures PhotoCls.name == PhotoName && PhotosetCls.name == PhotosetName
    ensures Lower(PhotoName) != Lower(PhotosetName)
  {
    assert |Lower(PhotoName)| == 5 && |Lower(PhotosetName)| == 8;
  }

  /** The provider before `__init__` registers its models. */
  function Unregistered(a: Account, schema: Schema, ext: Externals, localTime: int -> int, epoch: int, now: int,
                        enabled: bool): Pipeline.Provider
  {
    Pipeline.Provider(
      "FlickrProvider", enabled, {"update_" + Lower(PhotoName), "update_" + Lower(PhotosetName)}, [],
      ClsSourceId,
      (cls: ModelCls) => if cls.name == PhotoName then DefaultFields(PhotoModel, cls) else DefaultFields(PhotosetModel, cls),
      (db: Db, m: string) => Update(a, localTime, epoch, now, db, m),
      (db: Db, m: string, cls: ModelCls, d: Data) => Err(NotImplemented),
      (db: Db, o: Obj, m: string, cls: ModelCls, d: Data, created: bool) => PostHandleDefault(schema, a.setPages, now, db, o),
      (db: Db, o: Obj, d: Data) => PreHandleItemCreated(schema, ext, a.exifOf, now, db, o, d))
  }

  /** `post_handle_default` keeps the database's keys unique, whatever it is handed. */
  lemma PostKeepsValid(a: Account, schema: Schema, now: int, p: Pipeline.Provider)
    requires forall db, o, m, c, d, b :: p.postHandleDefault(db, o, m, c, d, b) == PostHandleDefault(schema, a.setPages, now, db, o)
    ensures forall db, o, m, c, d, b :: Valid(db) && p.postHandleDefault(db, o, m, c, d, b).Ok? ==>
      Valid(p.postHandleDefault(db, o, m, c, d, b).value)
  {
  }

  /** `pre_handle_item_created` keeps the database's keys unique, whatever it is handed. */
  lemma PreKeepsValid(a: Account, schema: Schema, ext: Externals, now: int, p: Pipeline.Provider)
    requires forall db, o, d :: p.preHandleItemCreated(db, o, d) == PreHandleItemCreated(schema, ext, a.exifOf, now, db, o, d)
    ensures forall db, o, d :: Valid(db) && p.preHandleItemCreated(db, o, d).Ok? ==> Valid(p.preHandleItemCreated(db, o, d).value.0)
  {
  }

  /** The Flickr hooks keep the database's keys unique. */
  lemma HooksKeepValid(a: Account, schema: Schema, ext: Externals, localTime: int -> int, epoch: int, now: int,
                       enabled: bool, registry: seq<Pipeline.Registration>)
    ensures Pipeline.KeepsValid(Unregistered(a, schema, ext, localTime, epoch, now, enabled).(registry := registry))
  {
    var p := Unregistered(a, schema, ext, localTime, epoch, now, enabled).(registry := registry);
    PostKeepsValid(a, schema, now, p);
    PreKeepsValid(a, schema, ext, now, p);
  }

  /**
   * The provider `FlickrProvider()` constructs: Photo registered at priority 0
   * and Photoset at priority 1, so both phases take photos before sets.
   */
  function Provider(a: Account, schema: Schema, ext: Externals, localTime: int -> int, epoch: int, now: int, enabled: bool)
    : (r: Pipeline.Provider)
    ensures Pipeline.QueuesTwo(r, PhotoCls, PhotosetCls)
    ensures Pipeline.KeepsValid(r) && r.enabled == enabled && r.name == "FlickrProvider"
  {
    var base := Unregistered(a, schema, ext, localTime, epoch, now, enabled);
    ModelNames();
    var p := Pipeline.RegisterTwo(base, PhotoCls, 0, PhotosetCls, 1);
    HooksKeepValid(a, schema, ext, localTime, epoch, now, enabled, p.registry);
    p
  }
}

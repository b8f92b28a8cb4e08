/**
 * Model rows and the Item manager: saving an instance, projecting it into the
 * timeline (`create_or_update`), the post-save projection of followed models
 * and `follow_model`'s name table.
 */
module Records {
  import opened Wrappers
  import opened Failures
  import opened Values
  import opened Strings
  import opened Timeline

  /**
   * A model class: its name, the name of its primary key, its other concrete
   * fields in declaration order, its first TagField (if any) and the value of
   * its `jellyrollable` attribute (true when the class does not define one).
   */
  datatype ModelCls = ModelCls(
    name: string,
    pkName: string,
    fields: seq<string>,
    tagField: Option<string>,
    jellyrollable: bool)

  /** An instance; it has a primary key once it has been saved or was given one. */
  datatype Obj = Obj(cls: ModelCls, pk: Option<string>, fields: Data)

  /**
   * What the Item manager reads off an instance besides its fields.
   * `timestampAttr` is None for a class without a `timestamp` attribute;
   * `urlAttr` is None when `hasattr(instance, 'url')` is false, which in Python 2
   * includes a `url` property that raises; `display` is `smart_unicode(instance)`.
   * The first argument is the stored rows, through which related objects are read.
   */
  datatype Schema = Schema(
    timestampAttr: Obj -> Option<Value>,
    urlAttr: (seq<Obj>, Obj) -> Option<Value>,
    display: (seq<Obj>, Obj) -> string)

  /**
   * The database: stored rows of every model, the Items, the classes whose
   * post-save signal is connected to `create_or_update`, and `models_by_name`.
   */
  datatype Db = Db(rows: seq<Obj>, items: seq<Item>, connected: set<string>, byName: map<string, string>)

  function RowKey(o: Obj): (string, Option<string>) {
    (o.cls.name, o.pk)
  }

  /** Every stored row has a primary key, unique within its class. */
  predicate RowsValid(rows: seq<Obj>) {
    (forall i :: 0 <= i < |rows| ==> rows[i].pk.Some?) &&
    (forall i, j :: 0 <= i < j < |rows| ==> RowKey(rows[i]) != RowKey(rows[j]))
  }

  predicate Valid(db: Db) {
    RowsValid(db.rows) && UniqueKeys(db.items)
  }

  const Empty: Db := Db([], [], {}, map[])

  function RowPosition(rows: seq<Obj>, name: string, pk: string): (r: Option<nat>)
    ensures r.Some? ==> r.value < |rows| && RowKey(rows[r.value]) == (name, Some(pk))
    ensures r.Some? ==> forall i :: 0 <= i < r.value ==> RowKey(rows[i]) != (name, Some(pk))
    ensures r.None? ==> forall i :: 0 <= i < |rows| ==> RowKey(rows[i]) != (name, Some(pk))
    decreases |rows|
  {
    if |rows| == 0 then None
    else if RowKey(rows[0]) == (name, Some(pk)) then Some(0)
    else
      match RowPosition(rows[1..], name, pk)
      case Some(i) => Some(i + 1)
      case None => None
  }

  /** `Model.objects.get(pk=pk)`, with None for DoesNotExist. */
  function Fetch(rows: seq<Obj>, name: string, pk: string): (r: Option<Obj>)
    ensures r.Some? ==> r.value in rows && RowKey(r.value) == (name, Some(pk))
    ensures r.None? ==> forall o :: o in rows ==> RowKey(o) != (name, Some(pk))
  {
    match RowPosition(rows, name, pk)
    case Some(i) => Some(rows[i])
    case None => None
  }

  /** The automatic primary key the next row of a class gets: one above every numeric key of that class. */
  function NextAutoId(rows: seq<Obj>, name: string): (r: nat)
    ensures forall i :: (0 <= i < |rows| && rows[i].cls.name == name && rows[i].pk.Some? &&
      ParseInt(rows[i].pk.value).Some?) ==> ParseInt(rows[i].pk.value).value < r
    decreases |rows|
  {
    if |rows| == 0 then 1
    else
      var m := NextAutoId(rows[1..], name);
      var o := rows[0];
      assert forall i :: 1 <= i < |rows| ==> rows[i] == rows[1..][i - 1];
      if o.cls.name == name && o.pk.Some? && ParseInt(o.pk.value).Some? && ParseInt(o.pk.value).value >= m
      then ParseInt(o.pk.value).value + 1
      else m
  }

  /** The automatic key is not the key of any stored row of the class. */
  lemma AutoIdFresh(rows: seq<Obj>, name: string)
    ensures forall o :: o in rows && o.cls.name == name ==> o.pk != Some(IntToString(NextAutoId(rows, name)))
  {
    var n := NextAutoId(rows, name);
    IntToStringParses(n);
    forall o | o in rows && o.cls.name == name ensures o.pk != Some(IntToString(n)) {
      var i :| 0 <= i < |rows| && rows[i] == o;
    }
  }

  /**
   * `instance.save()` without signals: an instance without a key gets the next
   * automatic key; the row is updated if stored and inserted otherwise.
   */
  function SaveRow(rows: seq<Obj>, o: Obj): (r: (seq<Obj>, Obj))
    ensures r.1.cls == o.cls && r.1.fields == o.fields && r.1.pk.Some?
    ensures o.pk.Some? ==> r.1 == o
    ensures o.pk.None? ==> forall x :: x in rows ==> RowKey(x) != RowKey(r.1)
    ensures Fetch(r.0, o.cls.name, r.1.pk.value) == Some(r.1)
    ensures forall x :: x in rows && RowKey(x) != RowKey(r.1) ==> x in r.0
    ensures forall x :: x in r.0 ==> x == r.1 || x in rows
    ensures RowsValid(rows) ==> RowsValid(r.0)
  {
    var saved := Keyed(rows, o);
    match RowPosition(rows, o.cls.name, saved.pk.value)
    case Some(i) =>
      ReplaceRow(rows, i, saved);
      (rows[i := saved], saved)
    case None =>
      AppendRow(rows, saved);
      (rows + [saved], saved)
  }

  /** The instance with its key: its own, or the next automatic one. */
  function Keyed(rows: seq<Obj>, o: Obj): (r: Obj)
    ensures r.cls == o.cls && r.fields == o.fields && r.pk.Some?
    ensures o.pk.Some? ==> r == o
    ensures o.pk.None? ==> forall x :: x in rows ==> RowKey(x) != RowKey(r)
  {
    AutoIdFresh(rows, o.cls.name);
    o.(pk := Some(if o.pk.Some? then o.pk.value else IntToString(NextAutoId(rows, o.cls.name))))
  }

  lemma ReplaceRow(rows: seq<Obj>, i: nat, saved: Obj)
    requires saved.pk.Some? && RowPosition(rows, saved.cls.name, saved.pk.value) == Some(i)
    ensures var r := rows[i := saved];
      Fetch(r, saved.cls.name, saved.pk.value) == Some(saved) &&
      (forall x :: x in rows && RowKey(x) != RowKey(saved) ==> x in r) &&
      (forall x :: x in r ==> x == saved || x in rows) &&
      (RowsValid(rows) ==> RowsValid(r))
  {
    var r := rows[i := saved];
    forall x | x in rows && RowKey(x) != RowKey(saved) ensures x in r {
      var k :| 0 <= k < |rows| && rows[k] == x;
      assert r[k] == x;
    }
    assert r[..i] == rows[..i];
    RowPositionOf(r, saved.cls.name, saved.pk.value, i);
  }

  lemma AppendRow(rows: seq<Obj>, saved: Obj)
    requires saved.pk.Some? && RowPosition(rows, saved.cls.name, saved.pk.value).None?
    ensures var r := rows + [saved];
      Fetch(r, saved.cls.name, saved.pk.value) == Some(saved) &&
      (forall x :: x in rows ==> x in r) &&
      (forall x :: x in r ==> x == saved || x in rows) &&
      (RowsValid(rows) ==> RowsValid(r))
  {
    RowPositionOf(rows + [saved], saved.cls.name, saved.pk.value, |rows|);
  }

  lemma RowPositionOf(rows: seq<Obj>, name: string, pk: string, k: nat)
    requires k < |rows| && RowKey(rows[k]) == (name, Some(pk))
    requires forall i :: 0 <= i < k ==> RowKey(rows[i]) != (name, Some(pk))
    ensures RowPosition(rows, name, pk) == Some(k)
  {
  }

  /** In rows with unique keys, fetching a stored row's key returns that row. */
  lemma FetchStored(rows: seq<Obj>, x: Obj)
    requires RowsValid(rows) && x in rows
    ensures x.pk.Some? && Fetch(rows, x.cls.name, x.pk.value) == Some(x)
  {
    var i :| 0 <= i < |rows| && rows[i] == x;
    var r := Fetch(rows, x.cls.name, x.pk.value);
    var j :| 0 <= j < |rows| && rows[j] == r.value;
    assert RowKey(rows[i]) == RowKey(rows[j]);
  }

  /** A timestamp value as the Item's DateTimeField takes it: None becomes the current time. */
  function ResolveTime(v: Value, now: int): (r: Result<int, Failure>)
    ensures r.Ok? <==> v.Null? || v.Time?
  {
    match v
    case Null => Ok(now)
    case Time(t) => Ok(t)
    case _ => Err(ValueError("timestamp"))
  }

  /** `Item.save`'s `smart_unicode(self.object)`: the stored object's display, or "None" once it is gone. */
  function ObjectStr(schema: Schema, rows: seq<Obj>, name: string, pk: string): string {
    match Fetch(rows, name, pk)
    case Some(row) => schema.display(rows, row)
    case None => "None"
  }

  /** The Item `create_or_update` writes for a saved instance. */
  function Projection(schema: Schema, rows: seq<Obj>, o: Obj, ts: Value, url: Value, tags: Value,
                      source: string, sourceId: string, now: int): (r: Result<Item, Failure>)
    requires o.pk.Some?
    ensures r.Ok? ==> Key(r.value) == (o.cls.name, o.pk.value)
    ensures r.Ok? ==> r.value.source == source && r.value.sourceId == sourceId
    ensures r.Ok? ==> r.value.objectStr == ObjectStr(schema, rows, o.cls.name, o.pk.value)
    ensures schema.timestampAttr(o).Some? ==> (r.Ok? <==> ResolveTime(schema.timestampAttr(o).value, now).Ok?)
    ensures schema.timestampAttr(o).Some? && r.Ok? ==> Ok(r.value.timestamp) == ResolveTime(schema.timestampAttr(o).value, now)
    ensures schema.timestampAttr(o).None? ==> (r.Ok? <==> ResolveTime(ts, now).Ok?)
    ensures schema.timestampAttr(o).None? && r.Ok? ==> Ok(r.value.timestamp) == ResolveTime(ts, now)
    ensures r.Ok? && Truthy(tags) ==> r.value.tags == tags
    ensures r.Ok? && !Truthy(tags) && o.cls.tagField.None? ==> r.value.tags == tags
    ensures r.Ok? && !Truthy(tags) && o.cls.tagField.Some? ==> r.value.tags == GetOr(o.fields, o.cls.tagField.value, Str(""))
    ensures r.Ok? && Truthy(url) ==> r.value.url == url
    ensures r.Ok? && !Truthy(url) ==> r.value.url == schema.urlAttr(rows, o).GetOr(url)
  {
    var stamp := match schema.timestampAttr(o) case Some(v) => v case None => ts;
    var t :- ResolveTime(stamp, now);
    var tg := if Truthy(tags) then tags
      else match o.cls.tagField case Some(f) => GetOr(o.fields, f, Str("")) case None => tags;
    var u := if Truthy(url) then url else schema.urlAttr(rows, o).GetOr(url);
    Ok(Item(o.cls.name, o.pk.value, t, u, tg, source, sourceId, ObjectStr(schema, rows, o.cls.name, o.pk.value)))
  }

  /** Lines 37-80 of `create_or_update`, for an instance that already has a key. */
  function Project(schema: Schema, db: Db, o: Obj, ts: Value, url: Value, tags: Value,
                   source: string, sourceId: string, now: int): (r: Result<(Db, Option<Item>), Failure>)
    requires o.pk.Some?
    ensures r.Ok? ==> r.value.0 == db.(items := r.value.0.items)
    ensures r.Ok? ==> (r.value.1.None? <==> !o.cls.jellyrollable)
    ensures r.Ok? && r.value.1.None? ==> r.value.0 == db
    ensures r.Ok? && r.value.1.Some? ==>
      Ok(r.value.1.value) == Projection(schema, db.rows, o, ts, url, tags, source, sourceId, now) &&
      r.value.0.items == Store(db.items, r.value.1.value)
    ensures o.cls.jellyrollable ==> (r.Ok? <==> Projection(schema, db.rows, o, ts, url, tags, source, sourceId, now).Ok?)
  {
    if !o.cls.jellyrollable then Ok((db, None))
    else
      var it :- Projection(schema, db.rows, o, ts, url, tags, source, sourceId, now);
      Ok((db.(items := Store(db.items, it)), Some(it)))
  }

  /**
   * The first step of `create_or_update`: an unsaved instance is saved with its
   * class's post-save signal disconnected, and the signal is connected
   * afterwards whether or not it was before. An instance with a key is not saved.
   */
  function SaveFirst(db: Db, o: Obj): (r: (Db, Obj))
    ensures r.1.pk.Some? && r.1.cls == o.cls && r.1.fields == o.fields
    ensures o.pk.Some? ==> r == (db, o)
    ensures o.pk.None? ==> r.0 == db.(rows := r.0.rows, connected := db.connected + {o.cls.name})
    ensures o.pk.None? ==> Fetch(r.0.rows, o.cls.name, r.1.pk.value) == Some(r.1)
    ensures o.pk.None? ==> forall x :: x in db.rows ==> RowKey(x) != RowKey(r.1)
    ensures RowsValid(db.rows) ==> RowsValid(r.0.rows)
  {
    if o.pk.None? then
      var (rows, saved) := SaveRow(db.rows, o);
      (db.(rows := rows, connected := db.connected + {o.cls.name}), saved)
    else (db, o)
  }

  /** `create_or_update`: save the instance if it has no key yet, then write its Item. */
  function CreateOrUpdate(schema: Schema, db: Db, o: Obj, ts: Value, url: Value, tags: Value,
                          source: string, sourceId: string, now: int): (r: Result<(Db, Option<Item>), Failure>)
    ensures r.Ok? && Valid(db) ==> Valid(r.value.0)
    ensures r.Ok? ==> (r.value.1.None? <==> !o.cls.jellyrollable)
    ensures r.Ok? && r.value.1.None? ==> r.value.0.items == db.items
  {
    var (db1, saved) := SaveFirst(db, o);
    Project(schema, db1, saved, ts, url, tags, source, sourceId, now)
  }

  /**
   * What `create_or_update` leaves behind: the instance's Item, keyed on its
   * class and key, carries exactly the provenance passed in and any truthy
   * url and tags passed in; it is the only Item for that object, every other
   * Item is kept, and an instance saved here is stored.
   */
  lemma CreateOrUpdateWrites(schema: Schema, db: Db, o: Obj, ts: Value, url: Value, tags: Value,
                             source: string, sourceId: string, now: int)
    requires Valid(db)
    requires var r := CreateOrUpdate(schema, db, o, ts, url, tags, source, sourceId, now);
      r.Ok? && r.value.1.Some?
    ensures var r := CreateOrUpdate(schema, db, o, ts, url, tags, source, sourceId, now);
      var (db2, it) := (r.value.0, r.value.1.value);
      it.ctype == o.cls.name && (o.pk.Some? ==> it.objectId == o.pk.value) &&
      it.source == source && it.sourceId == sourceId &&
      (Truthy(url) ==> it.url == url) && (Truthy(tags) ==> it.tags == tags) &&
      it in db2.items &&
      (forall x :: x in db2.items && Key(x) == Key(it) ==> x == it) &&
      (forall x :: x in db.items && Key(x) != Key(it) ==> x in db2.items) &&
      (forall x :: x in db2.items ==> x == it || x in db.items) &&
      (o.pk.None? ==>
        Fetch(db2.rows, it.ctype, it.objectId) == Some(Obj(o.cls, Some(it.objectId), o.fields)) &&
        o.cls.name in db2.connected)
  {
    var (db1, saved) := SaveFirst(db, o);
    var r := Project(schema, db1, saved, ts, url, tags, source, sourceId, now);
    assert r.value.0.items == Store(db.items, r.value.1.value);
  }

  /** The instance as it is after `create_or_update` gave it the key its Item names. */
  function WithKey(o: Obj, it: Item): Obj {
    o.(pk := Some(it.objectId))
  }

  /**
   * Calling `create_or_update` again for the same instance with the same
   * arguments changes nothing: there is still exactly the one Item.
   */
  lemma CreateOrUpdateIdempotent(schema: Schema, db: Db, o: Obj, ts: Value, url: Value, tags: Value,
                                 source: string, sourceId: string, now: int)
    requires var r := CreateOrUpdate(schema, db, o, ts, url, tags, source, sourceId, now);
      r.Ok? && r.value.1.Some?
    ensures var r := CreateOrUpdate(schema, db, o, ts, url, tags, source, sourceId, now);
      CreateOrUpdate(schema, r.value.0, WithKey(o, r.value.1.value), ts, url, tags, source, sourceId, now) == r
  {
    var (db1, saved) := SaveFirst(db, o);
    ProjectIdempotent(schema, db1, saved, ts, url, tags, source, sourceId, now);
  }

  lemma ProjectIdempotent(schema: Schema, db: Db, o: Obj, ts: Value, url: Value, tags: Value,
                          source: string, sourceId: string, now: int)
    requires o.pk.Some?
    requires var r := Project(schema, db, o, ts, url, tags, source, sourceId, now);
      r.Ok? && r.value.1.Some?
    ensures var r := Project(schema, db, o, ts, url, tags, source, sourceId, now);
      Project(schema, r.value.0, o, ts, url, tags, source, sourceId, now) == r
  {
    var r := Project(schema, db, o, ts, url, tags, source, sourceId, now);
    var it := r.value.1.value;
    StoreIdempotent(db.items, it);
    assert r.value.0.rows == db.rows;
  }

  /**
   * `instance.save()` with the post-save signal: when the class is connected,
   * the save projects the instance with `INTERACTIVE` provenance and no
   * timestamp, url or tags of its own.
   */
  function SaveWithSignal(schema: Schema, db: Db, o: Obj, now: int): (r: Result<(Db, Obj), Failure>)
    ensures r.Ok? ==> r.value.1.cls == o.cls && r.value.1.fields == o.fields && r.value.1.pk.Some?
    ensures r.Ok? && o.pk.Some? ==> r.value.1 == o
    ensures r.Ok? ==> Fetch(r.value.0.rows, o.cls.name, r.value.1.pk.value) == Some(r.value.1)
    ensures r.Ok? && Valid(db) ==> Valid(r.value.0)
    ensures r.Ok? && o.cls.name !in db.connected ==> r.value.0.items == db.items
    ensures r.Ok? ==> r.value.0.connected == db.connected && r.value.0.byName == db.byName
    ensures r.Ok? ==> forall x :: x in db.rows && RowKey(x) != RowKey(r.value.1) ==> x in r.value.0.rows
    ensures r.Ok? ==> forall x :: x in r.value.0.rows ==> x == r.value.1 || x in db.rows
  {
    var (rows, saved) := SaveRow(db.rows, o);
    var db1 := db.(rows := rows);
    if o.cls.name in db.connected then
      var (db2, _) :- Project(schema, db1, saved, Null, Null, Str(""), Interactive, "", now);
      Ok((db2, saved))
    else
      Ok((db1, saved))
  }

  /**
   * Saving an instance of a connected class, after it was projected by a
   * provider, resets its Item's provenance to `INTERACTIVE` with an empty
   * source id, and its tags to "" when the class has no TagField.
   */
  lemma SignalResetsProvenance(schema: Schema, db: Db, o: Obj, now: int)
    requires Valid(db)
    requires o.cls.name in db.connected && o.cls.jellyrollable && o.cls.tagField.None?
    requires SaveWithSignal(schema, db, o, now).Ok?
    ensures var (db2, saved) := SaveWithSignal(schema, db, o, now).value;
      exists it :: it in db2.items && Key(it) == (o.cls.name, saved.pk.value) &&
        it.source == Interactive && it.sourceId == "" && it.tags == Str("") &&
        forall x :: x in db2.items && Key(x) == Key(it) ==> x == it
  {
    var (rows, saved) := SaveRow(db.rows, o);
    var db1 := db.(rows := rows);
    var it := Projection(schema, rows, saved, Null, Null, Str(""), Interactive, "", now).value;
    assert db1.items == db.items;
    assert it in Store(db1.items, it);
  }

  /** `follow_model`: record the class under its lower-case name and connect its post-save signal. */
  function Follow(db: Db, cls: ModelCls): (r: Db)
    ensures r.byName == db.byName[Lower(cls.name) := cls.name]
    ensures r.connected == db.connected + {cls.name}
    ensures r.rows == db.rows && r.items == db.items
  {
    db.(byName := db.byName[Lower(cls.name) := cls.name], connected := db.connected + {cls.name})
  }

  function FollowAll(db: Db, classes: seq<ModelCls>): (r: Db)
    ensures r.rows == db.rows && r.items == db.items
    decreases |classes|
  {
    if |classes| == 0 then db else FollowAll(Follow(db, classes[0]), classes[1..])
  }

  /**
   * Following a list of classes whose lower-case names differ makes
   * `models_by_name` map each lower-case name to its class and connects every one.
   */
  lemma {:induction false} FollowAllByName(db: Db, classes: seq<ModelCls>)
    requires forall i, j :: 0 <= i < j < |classes| ==> Lower(classes[i].name) != Lower(classes[j].name)
    ensures var r := FollowAll(db, classes);
      forall i :: 0 <= i < |classes| ==>
        Lower(classes[i].name) in r.byName && r.byName[Lower(classes[i].name)] == classes[i].name &&
        classes[i].name in r.connected
    decreases |classes|
  {
    if |classes| > 0 {
      var db1 := Follow(db, classes[0]);
      var rest := classes[1..];
      assert forall i, j :: 0 <= i < j < |rest| ==> Lower(rest[i].name) != Lower(rest[j].name) by {
        forall i, j | 0 <= i < j < |rest| ensures Lower(rest[i].name) != Lower(rest[j].name) {
          assert rest[i] == classes[i + 1] && rest[j] == classes[j + 1];
        }
      }
      FollowAllByName(db1, rest);
      FollowAllKeeps(db1, rest, Lower(classes[0].name), classes[0].name);
      var r := FollowAll(db, classes);
      forall i | 0 <= i < |classes|
        ensures Lower(classes[i].name) in r.byName && r.byName[Lower(classes[i].name)] == classes[i].name
        ensures classes[i].name in r.connected
      {
        if i > 0 {
          assert classes[i] == rest[i - 1];
        }
      }
    }
  }

  /** Later follows leave an entry alone unless they write the same lower-case name, and never disconnect. */
  lemma {:induction false} FollowAllKeeps(db: Db, classes: seq<ModelCls>, key: string, name: string)
    requires key in db.byName && db.byName[key] == name && name in db.connected
    requires forall i :: 0 <= i < |classes| ==> Lower(classes[i].name) != key
    ensures var r := FollowAll(db, classes);
      key in r.byName && r.byName[key] == name && name in r.connected
    decreases |classes|
  {
    if |classes| > 0 {
      FollowAllKeeps(Follow(db, classes[0]), classes[1..], key, name);
    }
  }

  /** The stored rows of class `name` whose field `f` holds `v`, in stored order: `objects.filter(f=v)`. */
  function RowsWhere(rows: seq<Obj>, name: string, f: string, v: Value): (r: seq<Obj>)
    ensures forall o :: o in r <==> o in rows && o.cls.name == name && o.pk.Some? && Has(o.fields, f, v)
    decreases |rows|
  {
    if |rows| == 0 then []
    else
      var rest := RowsWhere(rows[1..], name, f, v);
      assert forall o :: o in rows <==> o == rows[0] || o in rows[1..];
      var o := rows[0];
      if o.cls.name == name && o.pk.Some? && Has(o.fields, f, v) then [o] + rest else rest
  }

  /**
   * `objects.get(f=v)`: the one stored row of class `name` whose field `f`
   * holds `v`. None raises DoesNotExist, several raise MultipleObjectsReturned.
   */
  function GetWhere(rows: seq<Obj>, name: string, f: string, v: Value): (r: Result<Obj, Failure>)
    ensures r.Ok? <==> |RowsWhere(rows, name, f, v)| == 1
    ensures r.Ok? ==> r.value in rows && r.value.cls.name == name && r.value.pk.Some? && Has(r.value.fields, f, v)
    ensures r.Err? && r.error.DoesNotExist? <==>
      forall o :: o in rows ==> !(o.cls.name == name && o.pk.Some? && Has(o.fields, f, v))
    ensures r.Err? ==> r.error == DoesNotExist(name) || r.error == MultipleObjectsReturned(name)
  {
    var m := RowsWhere(rows, name, f, v);
    if |m| == 0 then Err(DoesNotExist(name))
    else
      assert m[0] in m;
      if |m| == 1 then Ok(m[0]) else Err(MultipleObjectsReturned(name))
  }
}

/**
 * The provider pipeline: model registration with priorities, the fetch phase
 * (`update_main`) and the handling phase (`handle_main`), in which each
 * candidate record is resolved to a model instance (`handle_default`), given
 * its defaults (`pre_handle_item`) and projected into the timeline
 * (`handle_item`), with failures confined to the record.
 */
module Pipeline {
  import opened Wrappers
  import opened Failures
  import opened Values
  import opened Strings
  import opened Timeline
  import opened Records
  import Sorting

  /** One `register_model` entry: the lower-case model name, the class, its priority, and whether the provider defines `handle_<model>`. */
  datatype Registration = Registration(model: string, cls: ModelCls, priority: int, hasHandler: bool)

  /**
   * A provider instance. `methods` names the `update_<model>` and
   * `handle_<model>` methods its class defines. The remaining fields are the
   * class's behaviour:
   *  - `sourceId`: `source_id(model_cls, extra)`; NotImplemented in the base class;
   *  - `defaultFields`: `get_default_fields(model_cls)`, by field name;
   *  - `update`: `update_<model>(get_update_data(...))`, the records it appends
   *    for a model, read against the database as it is before handling starts;
   *  - `handler`: the class's own `handle_<model>`, used where `hasHandler`;
   *  - `postHandleDefault` and `preHandleItemCreated`: the two hooks providers override.
   */
  datatype Provider = Provider(
    name: string,
    enabled: bool,
    methods: set<string>,
    registry: seq<Registration>,
    sourceId: (ModelCls, Data) -> Result<string, Failure>,
    defaultFields: ModelCls -> seq<string>,
    update: (Db, string) -> Result<seq<Data>, Failure>,
    handler: (Db, string, ModelCls, Data) -> Result<(Db, Option<(Obj, bool)>), Failure>,
    postHandleDefault: (Db, Obj, string, ModelCls, Data, bool) -> Result<Db, Failure>,
    preHandleItemCreated: (Db, Obj, Data) -> Result<(Db, Obj), Failure>)

  /** The base class's `get_default_fields`: every field but the primary key. */
  function BaseDefaultFields(cls: ModelCls): seq<string> {
    cls.fields
  }

  /** The field names left once `x` is removed from it, in order. */
  function Without(xs: seq<string>, x: string): (r: seq<string>)
    ensures forall y :: y in r <==> y in xs && y != x
    ensures |r| <= |xs|
    decreases |xs|
  {
    if |xs| == 0 then []
    else
      var rest := Without(xs[1..], x);
      assert forall y :: y in xs <==> y == xs[0] || y in xs[1..];
      if xs[0] == x then rest else [xs[0]] + rest
  }

  /** The field names left once the first occurrence of `x` is removed (`list.remove`). */
  function RemoveFirst(xs: seq<string>, x: string): (r: seq<string>)
    ensures x !in xs ==> r == xs
    ensures forall y :: y in r ==> y in xs
    decreases |xs|
  {
    if |xs| == 0 then []
    else if xs[0] == x then xs[1..]
    else [xs[0]] + RemoveFirst(xs[1..], x)
  }

  /** The position of the first occurrence of a present name. */
  function FirstIndex(xs: seq<string>, x: string): (r: nat)
    requires x in xs
    ensures r < |xs| && xs[r] == x && x !in xs[..r]
    decreases |xs|
  {
    if xs[0] == x then 0
    else
      var i := FirstIndex(xs[1..], x);
      assert xs[..i + 1] == [xs[0]] + xs[1..][..i];
      i + 1
  }

  /** Removing a present name cuts the list at its first occurrence; the other names keep their order. */
  lemma {:induction false} RemoveFirstSplits(xs: seq<string>, x: string)
    requires x in xs
    ensures RemoveFirst(xs, x) == xs[..FirstIndex(xs, x)] + xs[FirstIndex(xs, x) + 1..]
    decreases |xs|
  {
    if xs[0] != x {
      var tail := xs[1..];
      var i := FirstIndex(tail, x);
      RemoveFirstSplits(tail, x);
      assert xs[..i + 1] == [xs[0]] + tail[..i];
      assert xs[i + 2..] == tail[i + 1..];
    }
  }

  /** The position of a model's registration, if it has one. */
  function Registered(registry: seq<Registration>, model: string): (r: Option<nat>)
    ensures r.Some? ==> r.value < |registry| && registry[r.value].model == model
    ensures r.Some? ==> forall i :: 0 <= i < r.value ==> registry[i].model != model
    ensures r.None? ==> forall i :: 0 <= i < |registry| ==> registry[i].model != model
    decreases |registry|
  {
    if |registry| == 0 then None
    else if registry[0].model == model then Some(0)
    else
      match Registered(registry[1..], model)
      case Some(i) => Some(i + 1)
      case None => None
  }

  /**
   * `register_model(model_cls, priority)`: the class is stored under its
   * lower-case name with its priority, replacing an earlier registration of
   * that name in place. `update_<model>` is mandatory and `handle_<model>`
   * optional.
   */
  function RegisterModel(p: Provider, cls: ModelCls, priority: int): (r: Result<Provider, Failure>)
    ensures r.Err? <==> "update_" + Lower(cls.name) !in p.methods
    ensures r.Err? ==> r.error == AttributeError("update_" + Lower(cls.name))
    ensures r.Ok? ==> r.value == p.(registry := r.value.registry)
    ensures r.Ok? ==> var i := Registered(r.value.registry, Lower(cls.name));
      i.Some? && r.value.registry[i.value] ==
        Registration(Lower(cls.name), cls, priority, "handle_" + Lower(cls.name) in p.methods)
    ensures r.Ok? ==> forall x :: x in p.registry && x.model != Lower(cls.name) ==> x in r.value.registry
    ensures r.Ok? ==> forall x :: x in r.value.registry ==> x.model == Lower(cls.name) || x in p.registry
  {
    var m := Lower(cls.name);
    if "update_" + m !in p.methods then Err(AttributeError("update_" + m))
    else
      var reg := Registration(m, cls, priority, "handle_" + m in p.methods);
      match Registered(p.registry, m)
      case Some(i) =>
        var r := p.registry[i := reg];
        assert r[i] == reg;
        RegisteredAt(r, m, i);
        forall x | x in p.registry && x.model != m ensures x in r {
          var k :| 0 <= k < |p.registry| && p.registry[k] == x;
          assert r[k] == x;
        }
        Ok(p.(registry := r))
      case None =>
        var r := p.registry + [reg];
        RegisteredAt(r, m, |p.registry|);
        Ok(p.(registry := r))
  }

  lemma RegisteredAt(registry: seq<Registration>, model: string, k: nat)
    requires k < |registry| && registry[k].model == model
    requires forall i :: 0 <= i < k ==> registry[i].model != model
    ensures Registered(registry, model) == Some(k)
    decreases k
  {
    if k > 0 {
      RegisteredAt(registry[1..], model, k - 1);
    }
  }

  /** Registration order by priority. */
  predicate NoLater(a: Registration, b: Registration) {
    a.priority <= b.priority
  }

  /** The processing order of both phases: registrations sorted by ascending priority (stable). */
  function Queue(p: Provider): seq<Registration> {
    Sorting.Sort(p.registry, NoLater)
  }

  /** Both phases handle model `a`, and no other. */
  predicate QueuesOne(p: Provider, a: ModelCls) {
    var q := Queue(p);
    |q| == 1 && q[0].cls == a && q[0].model == Lower(a.name)
  }

  /** Both phases handle model `a` first and model `b` second, and no other. */
  predicate QueuesTwo(p: Provider, a: ModelCls, b: ModelCls) {
    var q := Queue(p);
    |q| == 2 && q[0].cls == a && q[0].model == Lower(a.name) && q[1].cls == b && q[1].model == Lower(b.name)
  }

  /** Both phases visit every registered model once, in ascending priority order. */
  lemma QueueOrdered(p: Provider)
    ensures Sorting.Sorted(Queue(p), NoLater)
    ensures multiset(Queue(p)) == multiset(p.registry)
    ensures forall i, j :: 0 <= i < j < |Queue(p)| ==> Queue(p)[i].priority <= Queue(p)[j].priority
  {
    assert Sorting.Total(NoLater) by {
      forall a: Registration, b: Registration ensures NoLater(a, b) || NoLater(b, a) {
      }
    }
    Sorting.SortSorted(p.registry, NoLater);
    SortedIsMonotone(Queue(p));
  }

  /**
   * Two models registered into an empty registry, the first at a priority no
   * higher than the second's, are queued in that order by both phases.
   */
  lemma RegisterTwoQueue(p: Provider, a: ModelCls, pa: int, b: ModelCls, pb: int)
    requires p.registry == [] && pa <= pb && Lower(a.name) != Lower(b.name)
    requires "update_" + Lower(a.name) in p.methods && "update_" + Lower(b.name) in p.methods
    ensures RegisterModel(p, a, pa).Ok? && RegisterModel(RegisterModel(p, a, pa).value, b, pb).Ok?
    ensures var q := Queue(RegisterModel(RegisterModel(p, a, pa).value, b, pb).value);
      |q| == 2 && q[0].cls == a && q[0].model == Lower(a.name) && q[0].priority == pa &&
      q[1].cls == b && q[1].model == Lower(b.name) && q[1].priority == pb
  {
    var ra := Registration(Lower(a.name), a, pa, "handle_" + Lower(a.name) in p.methods);
    var rb := Registration(Lower(b.name), b, pb, "handle_" + Lower(b.name) in p.methods);
    RegisterFirst(p, a, pa);
    var p1 := RegisterModel(p, a, pa).value;
    RegisterSecond(p1, ra, b, pb);
    var p2 := RegisterModel(p1, b, pb).value;
    assert Sorting.Sorted([ra, rb], NoLater);
    Sorting.SortOfSorted([ra, rb], NoLater);
  }

  /** The first registration into an empty registry is the registry's only entry. */
  lemma RegisterFirst(p: Provider, a: ModelCls, pa: int)
    requires p.registry == [] && "update_" + Lower(a.name) in p.methods
    ensures RegisterModel(p, a, pa).Ok?
    ensures RegisterModel(p, a, pa).value.registry == [Registration(Lower(a.name), a, pa, "handle_" + Lower(a.name) in p.methods)]
  {
  }

  /** A second registration, of another model, goes after the first. */
  lemma RegisterSecond(p: Provider, ra: Registration, b: ModelCls, pb: int)
    requires p.registry == [ra] && ra.model != Lower(b.name) && "update_" + Lower(b.name) in p.methods
    ensures RegisterModel(p, b, pb).Ok?
    ensures RegisterModel(p, b, pb).value.registry == [ra, Registration(Lower(b.name), b, pb, "handle_" + Lower(b.name) in p.methods)]
  {
    assert Registered([ra], Lower(b.name)).None?;
  }

  /** What a constructor that registers one model leaves: that model alone in the queue. */
  function RegisterOne(p: Provider, a: ModelCls, pa: int): (r: Provider)
    requires p.registry == [] && "update_" + Lower(a.name) in p.methods
    ensures r == p.(registry := r.registry)
    ensures var q := Queue(r);
      |q| == 1 && q[0].cls == a && q[0].model == Lower(a.name) && q[0].priority == pa &&
      q[0].hasHandler == ("handle_" + Lower(a.name) in p.methods)
  {
    var ra := Registration(Lower(a.name), a, pa, "handle_" + Lower(a.name) in p.methods);
    RegisterFirst(p, a, pa);
    var r := RegisterModel(p, a, pa).value;
    Sorting.SortOfSorted([ra], NoLater);
    r
  }

  /** What a constructor that registers two models in turn leaves: both in the queue, by priority. */
  function RegisterTwo(p: Provider, a: ModelCls, pa: int, b: ModelCls, pb: int): (r: Provider)
    requires p.registry == [] && pa <= pb && Lower(a.name) != Lower(b.name)
    requires "update_" + Lower(a.name) in p.methods && "update_" + Lower(b.name) in p.methods
    ensures r == p.(registry := r.registry)
    ensures var q := Queue(r);
      |q| == 2 && q[0].cls == a && q[0].model == Lower(a.name) && q[0].priority == pa &&
      q[1].cls == b && q[1].model == Lower(b.name) && q[1].priority == pb
  {
    RegisterTwoQueue(p, a, pa, b, pb);
    RegisterModel(RegisterModel(p, a, pa).value, b, pb).value
  }


  lemma {:induction false} SortedIsMonotone(q: seq<Registration>)
    requires Sorting.Sorted(q, NoLater)
    ensures forall i, j :: 0 <= i < j < |q| ==> q[i].priority <= q[j].priority
    decreases |q|
  {
    if |q| > 1 {
      assert Sorting.Sorted(q[1..], NoLater) by {
        forall i | 0 <= i < |q[1..]| - 1 ensures NoLater(q[1..][i], q[1..][i + 1]) {
          assert q[1..][i] == q[i + 1] && q[1..][i + 1] == q[i + 2];
        }
      }
      SortedIsMonotone(q[1..]);
      forall i, j | 0 <= i < j < |q| ensures q[i].priority <= q[j].priority {
        if i > 0 {
          assert q[i] == q[1..][i - 1] && q[j] == q[1..][j - 1];
        } else {
          assert NoLater(q[0], q[1]);
          if j > 1 {
            assert q[1] == q[1..][0] && q[j] == q[1..][j - 1];
          }
        }
      }
    }
  }

  /** The records each model's updater produced, by model name. */
  type Incoming = map<string, seq<Data>>

  /** `update_main`: run the updaters in queue order; the first exception ends the provider's run. */
  function UpdateMain(p: Provider, db: Db): (r: Result<Incoming, Failure>)
    ensures r.Ok? ==> forall i :: 0 <= i < |Queue(p)| ==>
      Queue(p)[i].model in r.value && p.update(db, Queue(p)[i].model) == Ok(r.value[Queue(p)[i].model])
  {
    Fetch(p, db, Queue(p))
  }

  function Fetch(p: Provider, db: Db, queue: seq<Registration>): (r: Result<Incoming, Failure>)
    ensures r.Ok? ==> forall i :: 0 <= i < |queue| ==>
      queue[i].model in r.value && p.update(db, queue[i].model) == Ok(r.value[queue[i].model])
    ensures r.Err? <==> exists i :: 0 <= i < |queue| && p.update(db, queue[i].model).Err?
    decreases |queue|
  {
    if |queue| == 0 then Ok(map[])
    else
      var batch :- p.update(db, queue[0].model);
      var rest :- Fetch(p, db, queue[1..]);
      assert forall i :: 1 <= i < |queue| ==> queue[i] == queue[1..][i - 1];
      Ok(rest[queue[0].model := batch])
  }

  /** The base `handle_default`'s instance: the resolved object with every default field overwritten from the data. */
  function Overlay(o: Obj, defaults: Data): (r: Obj)
    ensures r.cls == o.cls && r.pk == o.pk
    ensures forall f :: f in defaults ==> f in r.fields && r.fields[f] == defaults[f]
    ensures forall f :: f in o.fields && f !in defaults ==> f in r.fields && r.fields[f] == o.fields[f]
  {
    o.(fields := o.fields + defaults)
  }

  /**
   * `handle_default`: the default fields are read from the record (a missing
   * one raises KeyError). A record carrying the primary key is resolved by
   * `get_or_create` on that key; otherwise the provider's source id is looked
   * up with `find`: a found Item yields its object, none yields a fresh
   * unsaved instance, and a provider without `source_id` yields None.
   */
  function HandleDefault(schema: Schema, p: Provider, db: Db, cls: ModelCls, data: Data, now: int)
    : (r: Result<(Db, Option<(Obj, bool)>), Failure>)
    ensures r.Ok? && r.value.1.Some? ==> forall f :: f in p.defaultFields(cls) ==>
      f in data && f in r.value.1.value.0.fields && r.value.1.value.0.fields[f] == data[f]
    ensures (exists f :: f in p.defaultFields(cls) && f !in data) ==> r.Err? && r.error.KeyError?
    ensures r.Ok? && r.value.0 != db ==> cls.pkName in data && r.value.1.Some? && r.value.1.value.1
    ensures r.Ok? && r.value.1.Some? && r.value.1.value.1 && cls.pkName !in data ==>
      r.value.1.value.0 == Obj(cls, None, r.value.1.value.0.fields) && r.value.0 == db
    ensures r.Ok? && r.value.1.None? ==> cls.pkName !in data && p.sourceId(cls, data) == Err(NotImplemented)
    // get_or_create on the key: a stored row is resolved and overlaid, and is not created
    ensures var defaults := Pick(data, p.defaultFields(cls));
      var pk := if cls.pkName in data then PkText(data[cls.pkName]) else Err(KeyError(cls.pkName));
      defaults.Ok? && pk.Ok? && Records.Fetch(db.rows, cls.name, pk.value).Some? ==>
        r == Ok((db, Some((Overlay(Records.Fetch(db.rows, cls.name, pk.value).value, defaults.value), false))))
    // get_or_create on the key: no such row, so one is saved under the key with the defaults, and created
    ensures var defaults := Pick(data, p.defaultFields(cls));
      var pk := if cls.pkName in data then PkText(data[cls.pkName]) else Err(KeyError(cls.pkName));
      r.Ok? && defaults.Ok? && pk.Ok? && Records.Fetch(db.rows, cls.name, pk.value).None? ==>
        var o := Obj(cls, Some(pk.value), defaults.value);
        r.value.1 == Some((o, true)) && Records.Fetch(r.value.0.rows, cls.name, pk.value) == Some(o)
    ensures cls.pkName in data && PkText(data[cls.pkName]).Err? ==> r.Err?
    // find succeeds and its object is stored: that object, overlaid, and not created
    ensures var defaults := Pick(data, p.defaultFields(cls));
      var found := if p.sourceId(cls, data).Ok? then Find(db.items, p.name, p.sourceId(cls, data).value)
                   else Err(NotImplemented);
      defaults.Ok? && cls.pkName !in data && found.Ok? &&
      Records.Fetch(db.rows, found.value.ctype, found.value.objectId).Some? ==>
        r == Ok((db, Some((Overlay(Records.Fetch(db.rows, found.value.ctype, found.value.objectId).value,
                                   defaults.value), false))))
    // find raises DoesNotExist: a fresh unsaved instance carrying the defaults, created
    ensures var defaults := Pick(data, p.defaultFields(cls));
      var found := if p.sourceId(cls, data).Ok? then Find(db.items, p.name, p.sourceId(cls, data).value)
                   else Err(NotImplemented);
      defaults.Ok? && cls.pkName !in data && found.Err? && found.error.DoesNotExist? ==>
        r == Ok((db, Some((Obj(cls, None, defaults.value), true))))
  {
    var defaults :- Pick(data, p.defaultFields(cls));
    if cls.pkName in data then
      var pk :- PkText(data[cls.pkName]);
      match Records.Fetch(db.rows, cls.name, pk)
      case Some(o) => Ok((db, Some((Overlay(o, defaults), false))))
      case None =>
        var (db1, o) :- SaveWithSignal(schema, db, Obj(cls, Some(pk), defaults), now);
        assert o.fields + defaults == defaults;
        Ok((db1, Some((Overlay(o, defaults), true))))
    else
      match p.sourceId(cls, data)
      case Err(NotImplemented) => Ok((db, None))
      case Err(e) => Err(e)
      case Ok(sid) =>
        match Find(db.items, p.name, sid)
        case Ok(item) =>
          (match Records.Fetch(db.rows, item.ctype, item.objectId)
           case Some(o) => Ok((db, Some((Overlay(o, defaults), false))))
           case None => Err(AttributeError("'NoneType' object has no attribute")))
        case Err(DoesNotExist(_)) => Ok((db, Some((Obj(cls, None, defaults), true))))
        case Err(e) => Err(e)
  }

  /**
   * The transaction `commit_on_success` wraps: `handle_<model>` (or the
   * default) and `post_handle_default`. A None result fails to unpack.
   */
  function DefaultPhase(schema: Schema, p: Provider, db: Db, reg: Registration, data: Data, now: int)
    : (r: Result<(Db, Obj, bool), Failure>)
  {
    var (db1, res) :- if reg.hasHandler then p.handler(db, reg.model, reg.cls, data)
                      else HandleDefault(schema, p, db, reg.cls, data, now);
    if res.None? then Err(TypeError("'NoneType' object is not iterable"))
    else
      var (o, created) := res.value;
      var db2 :- p.postHandleDefault(db1, o, reg.model, reg.cls, data, created);
      Ok((db2, o, created))
  }

  /** `pre_handle_item`'s defaults: a missing timestamp or url becomes None and missing tags "". */
  function FillDefaults(data: Data): (r: Data)
    ensures "timestamp" in r && "url" in r && "tags" in r
    ensures forall k :: k in data ==> k in r && r[k] == data[k]
    ensures forall k :: k in r && k !in data ==> k in {"timestamp", "url", "tags"}
    ensures "timestamp" !in data ==> r["timestamp"] == Null
    ensures "url" !in data ==> r["url"] == Null
    ensures "tags" !in data ==> r["tags"] == Str("")
  {
    var d1 := if "timestamp" in data then data else data["timestamp" := Null];
    var d2 := if "url" in d1 then d1 else d1["url" := Null];
    if "tags" in d2 then d2 else d2["tags" := Str("")]
  }

  /** `pre_handle_item`: fill the defaults, then the created-hook for a new instance. */
  function PreHandleItem(p: Provider, db: Db, o: Obj, data: Data, created: bool): (r: Result<(Db, Obj, Data), Failure>)
    ensures !created ==> r == Ok((db, o, FillDefaults(data)))
  {
    var d := FillDefaults(data);
    if created then
      var (db1, o1) :- p.preHandleItemCreated(db, o, d);
      Ok((db1, o1, d))
    else Ok((db, o, d))
  }

  /**
   * `handle_item`: an Item the provider already stored under this record's
   * source id is returned as it is; otherwise the instance is projected with
   * the provider's class name and the record's source id as provenance.
   */
  function HandleItem(schema: Schema, p: Provider, db: Db, o: Obj, data: Data, now: int)
    : (r: Result<(Db, Option<Item>), Failure>)
    ensures r.Ok? && p.sourceId(o.cls, data).Ok? && Find(db.items, p.name, p.sourceId(o.cls, data).value).Ok? ==>
      r.value == (db, Some(Find(db.items, p.name, p.sourceId(o.cls, data).value).value))
    ensures p.sourceId(o.cls, data).Err? ==> r == Err(p.sourceId(o.cls, data).error)
    ensures r.Ok? && Valid(db) ==> Valid(r.value.0)
  {
    var sid :- p.sourceId(o.cls, data);
    match Find(db.items, p.name, sid)
    case Ok(item) => Ok((db, Some(item)))
    case Err(DoesNotExist(_)) =>
      var ts :- Get(data, "timestamp");
      var url :- Get(data, "url");
      var tags :- Get(data, "tags");
      CreateOrUpdate(schema, db, o, ts, url, tags, p.name, sid, now)
    case Err(e) => Err(e)
  }

  /**
   * One record of `handle_main`: the database after it and the exception it
   * raised, if any. A failure inside the transaction rolls back to `db`;
   * effects of the later steps that ran before a failure remain.
   */
  function HandleRecord(schema: Schema, p: Provider, db: Db, reg: Registration, data: Data, now: int)
    : (r: (Db, Option<Failure>))
    ensures DefaultPhase(schema, p, db, reg, data, now).Err? ==>
      r == (db, Some(DefaultPhase(schema, p, db, reg, data, now).error))
  {
    match DefaultPhase(schema, p, db, reg, data, now)
    case Err(e) => (db, Some(e))
    case Ok((db1, o, created)) =>
      match PreHandleItem(p, db1, o, data, created)
      case Err(e) => (db1, Some(e))
      case Ok((db2, o2, d)) =>
        match HandleItem(schema, p, db2, o2, d, now)
        case Err(e) => (db2, Some(e))
        case Ok((db3, _)) => (db3, None)
  }

  /** How one record is handled: the database after it and the exception it raised, if any. */
  type RecordStep = (Db, Data) -> (Db, Option<Failure>)

  /** The handling of one model's records by a provider. */
  function Handler(schema: Schema, p: Provider, reg: Registration, now: int): RecordStep {
    (db: Db, d: Data) => HandleRecord(schema, p, db, reg, d, now)
  }

  /**
   * Records handled in order. Each record's exception is logged and the next
   * record is handled, except KeyboardInterrupt and SystemExit, which are not
   * `Exception`s: they end the batch.
   */
  function Batch(step: RecordStep, db: Db, batch: seq<Data>): (r: (Db, seq<Option<Failure>>))
    ensures |r.1| <= |batch|
    ensures Some(Interrupted) !in r.1 ==> |r.1| == |batch|
    ensures Some(Interrupted) in r.1 ==> r.1[|r.1| - 1] == Some(Interrupted) && Some(Interrupted) !in r.1[..|r.1| - 1]
    decreases |batch|
  {
    if |batch| == 0 then (db, [])
    else
      var (db1, e) := step(db, batch[0]);
      if e == Some(Interrupted) then (db1, [e])
      else
        var (db2, es) := Batch(step, db1, batch[1..]);
        assert ([e] + es)[1..] == es;
        assert Some(Interrupted) in es ==> ([e] + es)[..|es|] == [e] + es[..|es| - 1];
        (db2, [e] + es)
  }

  /** The records of one model in order, as `handle_main` handles them. */
  function HandleBatch(schema: Schema, p: Provider, db: Db, reg: Registration, batch: seq<Data>, now: int)
    : (r: (Db, seq<Option<Failure>>))
  {
    Batch(Handler(schema, p, reg, now), db, batch)
  }

  /** Handling `a + b` is handling `a`, then `b` from where `a` left off, when nothing in `a` interrupts. */
  lemma {:induction false} BatchAppend(step: RecordStep, db: Db, a: seq<Data>, b: seq<Data>)
    requires Some(Interrupted) !in Batch(step, db, a).1
    ensures var (db1, e1) := Batch(step, db, a);
      var (db2, e2) := Batch(step, db1, b);
      Batch(step, db, a + b) == (db2, e1 + e2)
    decreases |a|
  {
    if |a| > 0 {
      assert (a + b)[0] == a[0] && (a + b)[1..] == a[1..] + b;
      var (db1, e) := step(db, a[0]);
      assert e != Some(Interrupted);
      BatchAppend(step, db1, a[1..], b);
      var (dbA, eA) := Batch(step, db1, a[1..]);
      var (dbB, eB) := Batch(step, dbA, b);
      assert Batch(step, db, a + b) == (dbB, [e] + (eA + eB));
      SeqAssoc([e], eA, eB);
    } else {
      assert a + b == b;
      var (_, eB) := Batch(step, db, b);
      assert [] + eB == eB;
    }
  }

  /**
   * Splitting a batch anywhere gives the same result as handling the two parts
   * one after the other: no ordinary failure in the first part stops the second.
   */
  lemma BatchSplits(schema: Schema, p: Provider, db: Db, reg: Registration, a: seq<Data>, b: seq<Data>, now: int)
    requires Some(Interrupted) !in HandleBatch(schema, p, db, reg, a, now).1
    ensures var (db1, e1) := HandleBatch(schema, p, db, reg, a, now);
      var (db2, e2) := HandleBatch(schema, p, db1, reg, b, now);
      HandleBatch(schema, p, db, reg, a + b, now) == (db2, e1 + e2)
  {
    BatchAppend(Handler(schema, p, reg, now), db, a, b);
  }

  /**
   * `handle_main`: the models in queue order, each with the records its
   * updater produced. A model the updater left without records raises
   * KeyError, and an interruption of a record propagates; either ends the
   * provider's run with what was done so far.
   */
  function HandleMain(schema: Schema, p: Provider, db: Db, incoming: Incoming, now: int): (r: (Db, Option<Failure>))
  {
    HandleQueue(schema, p, db, Queue(p), incoming, now)
  }

  function HandleQueue(schema: Schema, p: Provider, db: Db, queue: seq<Registration>, incoming: Incoming, now: int)
    : (r: (Db, Option<Failure>))
    ensures (forall i :: 0 <= i < |queue| ==> queue[i].model in incoming) ==> r.1.None? || r.1 == Some(Interrupted)
    ensures |queue| > 0 && queue[0].model !in incoming ==> r == (db, Some(KeyError(queue[0].model)))
    decreases |queue|
  {
    if |queue| == 0 then (db, None)
    else if queue[0].model !in incoming then (db, Some(KeyError(queue[0].model)))
    else
      var (db1, es) := HandleBatch(schema, p, db, queue[0], incoming[queue[0].model], now);
      if Some(Interrupted) in es then (db1, Some(Interrupted))
      else
        assert forall i :: 1 <= i < |queue| ==> queue[i] == queue[1..][i - 1];
        HandleQueue(schema, p, db1, queue[1..], incoming, now)
  }

  /** `run_update`: fetch, then handle; an exception of the fetch phase leaves the database untouched. */
  function RunUpdate(schema: Schema, p: Provider, db: Db, now: int): (r: (Db, Option<Failure>))
    ensures UpdateMain(p, db).Err? ==> r == (db, Some(UpdateMain(p, db).error))
    ensures UpdateMain(p, db).Ok? ==> r.1.None? || r.1 == Some(Interrupted)
  {
    match UpdateMain(p, db)
    case Err(e) => (db, Some(e))
    case Ok(incoming) => HandleMain(schema, p, db, incoming, now)
  }

  /** The hooks and handlers a provider supplies keep the database's keys unique. */
  ghost predicate KeepsValid(p: Provider) {
    (forall db, m, c, d :: Valid(db) && p.handler(db, m, c, d).Ok? ==> Valid(p.handler(db, m, c, d).value.0)) &&
    (forall db, o, m, c, d, b :: Valid(db) && p.postHandleDefault(db, o, m, c, d, b).Ok? ==>
      Valid(p.postHandleDefault(db, o, m, c, d, b).value)) &&
    (forall db, o, d :: Valid(db) && p.preHandleItemCreated(db, o, d).Ok? ==>
      Valid(p.preHandleItemCreated(db, o, d).value.0))
  }

  /** Handling a record never breaks the one-Item-per-object and one-row-per-key invariants. */
  lemma RecordKeepsValid(schema: Schema, p: Provider, db: Db, reg: Registration, data: Data, now: int)
    requires Valid(db) && KeepsValid(p)
    ensures Valid(HandleRecord(schema, p, db, reg, data, now).0)
  {
    var r1 := DefaultPhase(schema, p, db, reg, data, now);
    if r1.Ok? {
      DefaultPhaseKeepsValid(schema, p, db, reg, data, now);
      var (db1, o, created) := r1.value;
      var r2 := PreHandleItem(p, db1, o, data, created);
      if r2.Ok? {
        PreHandleItemKeepsValid(p, db1, o, data, created);
      }
    }
  }

  lemma DefaultPhaseKeepsValid(schema: Schema, p: Provider, db: Db, reg: Registration, data: Data, now: int)
    requires Valid(db) && KeepsValid(p)
    ensures var r := DefaultPhase(schema, p, db, reg, data, now); r.Ok? ==> Valid(r.value.0)
  {
    var r0 := if reg.hasHandler then p.handler(db, reg.model, reg.cls, data)
              else HandleDefault(schema, p, db, reg.cls, data, now);
    if r0.Ok? {
      if !reg.hasHandler {
        HandleDefaultKeepsValid(schema, p, db, reg.cls, data, now);
      }
      assert Valid(r0.value.0);
    }
  }

  lemma HandleDefaultKeepsValid(schema: Schema, p: Provider, db: Db, cls: ModelCls, data: Data, now: int)
    requires Valid(db)
    ensures var r := HandleDefault(schema, p, db, cls, data, now); r.Ok? ==> Valid(r.value.0)
  {
  }

  lemma PreHandleItemKeepsValid(p: Provider, db: Db, o: Obj, data: Data, created: bool)
    requires Valid(db) && KeepsValid(p)
    ensures var r := PreHandleItem(p, db, o, data, created); r.Ok? ==> Valid(r.value.0)
  {
  }

  /** Handling a whole batch keeps the invariants. */
  lemma {:induction false} BatchKeepsValid(schema: Schema, p: Provider, db: Db, reg: Registration, batch: seq<Data>, now: int)
    requires Valid(db) && KeepsValid(p)
    ensures Valid(HandleBatch(schema, p, db, reg, batch, now).0)
    decreases |batch|
  {
    if |batch| > 0 {
      RecordKeepsValid(schema, p, db, reg, batch[0], now);
      var (db1, e) := Handler(schema, p, reg, now)(db, batch[0]);
      if e != Some(Interrupted) {
        BatchKeepsValid(schema, p, db1, reg, batch[1..], now);
      }
    }
  }

  /**
   * Once `handle_item` has projected an instance under a source id no Item
   * carried before, `find` with that source id returns exactly that Item, so
   * the next run recognises the record and leaves the timeline as it is.
   */
  lemma HandleItemThenFound(schema: Schema, p: Provider, db: Db, o: Obj, data: Data, now: int)
    requires Valid(db)
    requires p.sourceId(o.cls, data).Ok?
    requires Find(db.items, p.name, p.sourceId(o.cls, data).value).Err?
    requires Find(db.items, p.name, p.sourceId(o.cls, data).value).error.DoesNotExist?
    requires var r := HandleItem(schema, p, db, o, data, now); r.Ok? && r.value.1.Some?
    ensures var r := HandleItem(schema, p, db, o, data, now);
      var sid := p.sourceId(o.cls, data).value;
      Find(r.value.0.items, p.name, sid) == Ok(r.value.1.value) &&
      HandleItem(schema, p, r.value.0, o, data, now) == Ok((r.value.0, r.value.1))
  {
    var sid := p.sourceId(o.cls, data).value;
    var ts := data["timestamp"];
    var url := data["url"];
    var tags := data["tags"];
    var r := HandleItem(schema, p, db, o, data, now);
    assert r == CreateOrUpdate(schema, db, o, ts, url, tags, p.name, sid, now);
    CreateOrUpdateWrites(schema, db, o, ts, url, tags, p.name, sid, now);
    var it := r.value.1.value;
    FindOnly(r.value.0.items, it);
  }

  /** The base class's hooks: `post_handle_default` and `pre_handle_item_created` change nothing. */
  ghost predicate BaseHooks(p: Provider) {
    (forall db, o, m, c, d, b :: p.postHandleDefault(db, o, m, c, d, b) == Ok(db)) &&
    (forall db, o, d :: p.preHandleItemCreated(db, o, d) == Ok((db, o)))
  }
  /** A provider that keeps the base hooks and defines no handler never breaks the database invariants. */
  lemma BaseKeepsValid(p: Provider)
    requires BaseHooks(p)
    requires forall db, m, c, d :: p.handler(db, m, c, d).Err?
    ensures KeepsValid(p)
  {
  }


  /**
   * A record whose source id names a stored Item, whose object is still
   * stored, changes nothing: the default phase finds the object and
   * `handle_item` finds the Item. New field values in the record are set on
   * the instance in memory only and never saved.
   */
  lemma SeenRecordUnchanged(schema: Schema, p: Provider, db: Db, reg: Registration, data: Data, now: int, sid: string)
    requires BaseHooks(p) && !reg.hasHandler
    requires reg.cls.pkName !in data
    requires forall f :: f in p.defaultFields(reg.cls) ==> f in data
    requires p.sourceId(reg.cls, data) == Ok(sid)
    requires Find(db.items, p.name, sid).Ok?
    requires var it := Find(db.items, p.name, sid).value;
      Records.Fetch(db.rows, it.ctype, it.objectId).Some? &&
      p.sourceId(Records.Fetch(db.rows, it.ctype, it.objectId).value.cls, FillDefaults(data)) == Ok(sid)
    ensures HandleRecord(schema, p, db, reg, data, now) == (db, None)
  {
    var it := Find(db.items, p.name, sid).value;
    var o := Records.Fetch(db.rows, it.ctype, it.objectId).value;
    var defaults := Pick(data, p.defaultFields(reg.cls)).value;
    var o1 := Overlay(o, defaults);
    assert HandleDefault(schema, p, db, reg.cls, data, now) == Ok((db, Some((o1, false))));
    assert DefaultPhase(schema, p, db, reg, data, now) == Ok((db, o1, false));
    assert HandleItem(schema, p, db, o1, FillDefaults(data), now) == Ok((db, Some(it)));
  }

  /**
   * Handling a record the timeline has not seen, with the base hooks and
   * handler, stores its object and Item; handling the same record again
   * then changes nothing, so repeated updates do not duplicate entries. A
   * record that carries its primary key needs nothing more
   * (KeyedRecordThenSeen); one resolved through `find` needs a source id that
   * the defaults of `pre_handle_item` do not change, and a jellyrollable class.
   */
  lemma NewRecordThenSeen(schema: Schema, p: Provider, db: Db, reg: Registration, data: Data, now: int, sid: string)
    requires Valid(db) && BaseHooks(p) && !reg.hasHandler
    requires reg.cls.pkName !in data ==>
      reg.cls.jellyrollable &&
      p.sourceId(reg.cls, data) == Ok(sid) && p.sourceId(reg.cls, FillDefaults(data)) == Ok(sid) &&
      Find(db.items, p.name, sid).Err? && Find(db.items, p.name, sid).error.DoesNotExist?
    requires HandleRecord(schema, p, db, reg, data, now).1.None?
    ensures var db1 := HandleRecord(schema, p, db, reg, data, now).0;
      HandleRecord(schema, p, db1, reg, data, now) == (db1, None)
  {
    if reg.cls.pkName in data {
      KeyedRecordThenSeen(schema, p, db, reg, data, now);
      return;
    }
    var defaults := Pick(data, p.defaultFields(reg.cls)).value;
    var o := Obj(reg.cls, None, defaults);
    var d := FillDefaults(data);
    assert DefaultPhase(schema, p, db, reg, data, now) == Ok((db, o, true));
    assert PreHandleItem(p, db, o, data, true) == Ok((db, o, d));
    var r := HandleItem(schema, p, db, o, d, now);
    assert r.Ok?;
    var r2 := CreateOrUpdate(schema, db, o, d["timestamp"], d["url"], d["tags"], p.name, sid, now);
    assert r == r2;
    HandleItemThenFound(schema, p, db, o, d, now);
    CreateOrUpdateWrites(schema, db, o, d["timestamp"], d["url"], d["tags"], p.name, sid, now);
    var db1 := r.value.0;
    assert HandleRecord(schema, p, db, reg, data, now).0 == db1;
    SeenRecordUnchanged(schema, p, db1, reg, data, now, sid);
  }

  /**
   * A record that carries its primary key, once handled without an exception,
   * is handled again without any change, whether or not its row and its Item
   * were stored before: `get_or_create` finds the row the first run stored or
   * resolved, and `handle_item` the Item it found or wrote.
   */
  lemma KeyedRecordThenSeen(schema: Schema, p: Provider, db: Db, reg: Registration, data: Data, now: int)
    requires Valid(db) && BaseHooks(p) && !reg.hasHandler
    requires reg.cls.pkName in data
    requires HandleRecord(schema, p, db, reg, data, now).1.None?
    ensures var db1 := HandleRecord(schema, p, db, reg, data, now).0;
      HandleRecord(schema, p, db1, reg, data, now) == (db1, None)
  {
    var (dbA, o, created) := DefaultPhase(schema, p, db, reg, data, now).value;
    var row := KeyedFirstPhase(schema, p, db, reg, data, now);
    var d := FillDefaults(data);
    assert PreHandleItem(p, dbA, o, data, created) == Ok((dbA, o, d));
    var (db1, _) := HandleItem(schema, p, dbA, o, d, now).value;
    assert HandleRecord(schema, p, db, reg, data, now).0 == db1;
    HandleItemAgain(schema, p, dbA, o, d, now);
    KeyedDefaultPhaseAgain(schema, p, db1, reg, data, now, row, o);
    assert PreHandleItem(p, db1, o, data, false) == Ok((db1, o, d));
  }

  /**
   * The default phase of a keyed record resolves the row stored under its key
   * afterwards, overlaid with the defaults, and keeps the invariants.
   */
  lemma KeyedFirstPhase(schema: Schema, p: Provider, db: Db, reg: Registration, data: Data, now: int) returns (row: Obj)
    requires Valid(db) && BaseHooks(p) && !reg.hasHandler
    requires reg.cls.pkName in data
    requires DefaultPhase(schema, p, db, reg, data, now).Ok?
    ensures var (dbA, o, _) := DefaultPhase(schema, p, db, reg, data, now).value;
      Valid(dbA) && PkText(data[reg.cls.pkName]).Ok? && Pick(data, p.defaultFields(reg.cls)).Ok? &&
      Records.Fetch(dbA.rows, reg.cls.name, PkText(data[reg.cls.pkName]).value) == Some(row) &&
      Overlay(row, Pick(data, p.defaultFields(reg.cls)).value) == o
  {
    var cls := reg.cls;
    var defaults := Pick(data, p.defaultFields(cls)).value;
    var pk := PkText(data[cls.pkName]).value;
    var (dbA, o, created) := DefaultPhase(schema, p, db, reg, data, now).value;
    if Records.Fetch(db.rows, cls.name, pk).Some? {
      row := Records.Fetch(db.rows, cls.name, pk).value;
      assert dbA == db && o == Overlay(row, defaults);
    } else {
      row := Obj(cls, Some(pk), defaults);
      assert o == row && Records.Fetch(dbA.rows, cls.name, pk) == Some(row);
      assert Overlay(row, defaults).fields == row.fields;
    }
    HandleDefaultKeepsValid(schema, p, db, cls, data, now);
  }

  /** Once `handle_item` succeeded, running it again on its outcome changes nothing, and it never touches rows. */
  lemma HandleItemAgain(schema: Schema, p: Provider, db: Db, o: Obj, d: Data, now: int)
    requires Valid(db) && HandleItem(schema, p, db, o, d, now).Ok? && o.pk.Some?
    ensures var db1 := HandleItem(schema, p, db, o, d, now).value.0;
      db1.rows == db.rows && HandleItem(schema, p, db1, o, d, now).Ok? &&
      HandleItem(schema, p, db1, o, d, now).value.0 == db1
  {
    var sid := p.sourceId(o.cls, d).value;
    if Find(db.items, p.name, sid).Err? {
      var cu := CreateOrUpdate(schema, db, o, d["timestamp"], d["url"], d["tags"], p.name, sid, now);
      assert HandleItem(schema, p, db, o, d, now) == cu;
      if cu.value.1.Some? {
        HandleItemThenFound(schema, p, db, o, d, now);
      }
    }
  }

  /** A keyed record whose row is stored: the default phase resolves that row and changes nothing. */
  lemma KeyedDefaultPhaseAgain(schema: Schema, p: Provider, db: Db, reg: Registration, data: Data, now: int, row: Obj, o: Obj)
    requires BaseHooks(p) && !reg.hasHandler
    requires reg.cls.pkName in data && PkText(data[reg.cls.pkName]).Ok? && Pick(data, p.defaultFields(reg.cls)).Ok?
    requires Records.Fetch(db.rows, reg.cls.name, PkText(data[reg.cls.pkName]).value) == Some(row)
    requires Overlay(row, Pick(data, p.defaultFields(reg.cls)).value) == o
    ensures DefaultPhase(schema, p, db, reg, data, now) == Ok((db, o, false))
  {
    assert HandleDefault(schema, p, db, reg.cls, data, now) == Ok((db, Some((o, false))));
  }
}

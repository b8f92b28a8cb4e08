/**
 * The timeline index: one `Item` per followed object, keyed by the object's
 * content type and primary key, with the provenance (`source`, `source_id`)
 * that providers use to recognise what they stored before, and the queries
 * the providers' checkpoints rest on.
 */
module Timeline {
  import opened Wrappers
  import opened Failures
  import opened Values
  import opened Strings
  import Sorting
  import Urls

  /**
   * An Item. `ctype` names the model class of the object (its content type),
   * `objectId` is the object's primary key as text, and `objectStr` is the
   * object's display string as it was when the Item was last saved.
   */
  datatype Item = Item(
    ctype: string,
    objectId: string,
    timestamp: int,
    url: Value,
    tags: Value,
    source: string,
    sourceId: string,
    objectStr: string)

  /** The provenance an Item gets when it is projected by a save rather than by a provider. */
  const Interactive: string := "INTERACTIVE"

  function Key(it: Item): (string, string) {
    (it.ctype, it.objectId)
  }

  /** `unique_together = (content_type, object_id)`: at most one Item per object. */
  predicate UniqueKeys(items: seq<Item>) {
    forall i, j :: 0 <= i < j < |items| ==> Key(items[i]) != Key(items[j])
  }

  /** The position of the Item stored for `key`, if any. */
  function Position(items: seq<Item>, key: (string, string)): (r: Option<nat>)
    ensures r.Some? ==> r.value < |items| && Key(items[r.value]) == key
    ensures r.Some? ==> forall i :: 0 <= i < r.value ==> Key(items[i]) != key
    ensures r.None? ==> forall i :: 0 <= i < |items| ==> Key(items[i]) != key
    decreases |items|
  {
    if |items| == 0 then None
    else if Key(items[0]) == key then Some(0)
    else
      match Position(items[1..], key)
      case Some(i) => Some(i + 1)
      case None => None
  }

  /**
   * `get_or_create` on the key followed by overwriting every field and saving:
   * the Item for `it`'s object becomes `it`, in place if one was stored and
   * appended otherwise; no other Item changes.
   */
  function Store(items: seq<Item>, it: Item): (r: seq<Item>)
    ensures UniqueKeys(items) ==> UniqueKeys(r)
    ensures it in r
    ensures forall x :: x in items && Key(x) != Key(it) ==> x in r
    ensures UniqueKeys(items) ==> forall x :: x in r ==> x == it || (x in items && Key(x) != Key(it))
    ensures |r| == if Position(items, Key(it)).Some? then |items| else |items| + 1
  {
    match Position(items, Key(it))
    case Some(i) =>
      var r := items[i := it];
      assert forall x :: x in items && Key(x) != Key(it) ==> x in r by {
        forall x | x in items && Key(x) != Key(it) ensures x in r {
          var k :| 0 <= k < |items| && items[k] == x;
          assert r[k] == x;
        }
      }
      assert r[i] == it;
      r
    case None => items + [it]
  }

  /** Storing the same Item twice is storing it once. */
  lemma StoreIdempotent(items: seq<Item>, it: Item)
    ensures Store(Store(items, it), it) == Store(items, it)
  {
    var r := Store(items, it);
    match Position(items, Key(it))
    case Some(i) =>
      assert r[..i] == items[..i];
      PositionOf(r, Key(it), i);
    case None =>
      PositionOf(r, Key(it), |items|);
  }

  /** The position of a key is the first place it occurs. */
  lemma PositionOf(items: seq<Item>, key: (string, string), k: nat)
    requires k < |items| && Key(items[k]) == key
    requires forall i :: 0 <= i < k ==> Key(items[i]) != key
    ensures Position(items, key) == Some(k)
  {
  }

  /** The Items a query keeps, in stored order. */
  function Select(items: seq<Item>, keep: Item -> bool): (r: seq<Item>)
    ensures forall x :: x in r <==> x in items && keep(x)
    ensures |r| <= |items|
    decreases |items|
  {
    if |items| == 0 then []
    else
      var rest := Select(items[1..], keep);
      assert forall x :: x in items <==> x == items[0] || x in items[1..];
      if keep(items[0]) then [items[0]] + rest else rest
  }

  /** The Items carrying the given provenance. */
  function Provenance(items: seq<Item>, source: string, sourceId: string): (r: seq<Item>)
    ensures forall x :: x in r <==> x in items && x.source == source && x.sourceId == sourceId
  {
    Select(items, (x: Item) => x.source == source && x.sourceId == sourceId)
  }

  /**
   * `find`: the one Item with this provenance. None raises DoesNotExist and
   * several raise MultipleObjectsReturned; the content type is not consulted.
   */
  function Find(items: seq<Item>, source: string, sourceId: string): (r: Result<Item, Failure>)
    ensures r.Ok? ==> r.value in items && r.value.source == source && r.value.sourceId == sourceId
    ensures r.Ok? ==> forall x :: x in items && x.source == source && x.sourceId == sourceId ==> x == r.value
    ensures (r.Err? && r.error.DoesNotExist?) <==>
      forall x :: x in items ==> !(x.source == source && x.sourceId == sourceId)
    ensures r.Err? ==> r.error.DoesNotExist? || r.error.MultipleObjectsReturned?
  {
    var m := Provenance(items, source, sourceId);
    if |m| == 0 then Err(DoesNotExist("Item"))
    else if |m| == 1 then Ok(m[0])
    else
      assert m[0] in items;
      Err(MultipleObjectsReturned("Item"))
  }

  /** No Item is stored twice. */
  predicate Distinct(s: seq<Item>) {
    forall i, j :: 0 <= i < j < |s| ==> s[i] != s[j]
  }

  /** A query over Items stored once lists each of them once. */
  lemma {:induction false} SelectDistinct(items: seq<Item>, keep: Item -> bool)
    requires Distinct(items)
    ensures Distinct(Select(items, keep))
    decreases |items|
  {
    if |items| > 0 {
      var tail := items[1..];
      assert Distinct(tail) by {
        forall i, j | 0 <= i < j < |tail| ensures tail[i] != tail[j] {
          assert tail[i] == items[i + 1] && tail[j] == items[j + 1];
        }
      }
      SelectDistinct(tail, keep);
      var rest := Select(tail, keep);
      if keep(items[0]) {
        assert items[0] !in tail by {
          forall k | 0 <= k < |tail| ensures tail[k] != items[0] {
            assert tail[k] == items[k + 1];
          }
        }
        var r := [items[0]] + rest;
        forall i, j | 0 <= i < j < |r| ensures r[i] != r[j] {
          if i > 0 {
            assert r[i] == rest[i - 1] && r[j] == rest[j - 1];
          } else {
            assert r[j] == rest[j - 1] && r[j] in rest;
          }
        }
      }
    }
  }

  lemma AtMostOne(m: seq<Item>, it: Item)
    requires Distinct(m)
    requires forall k :: 0 <= k < |m| ==> m[k] == it
    ensures |m| <= 1
  {
    if |m| > 1 {
      FirstTwo(m);
      assert false;
    }
  }

  lemma FirstTwo(m: seq<Item>)
    requires |m| > 1 && Distinct(m)
    ensures m[0] != m[1]
  {
  }

  /** When the key invariant holds and one stored Item carries a provenance, `find` returns it. */
  lemma FindOnly(items: seq<Item>, it: Item)
    requires UniqueKeys(items) && it in items
    requires forall x :: x in items && x.source == it.source && x.sourceId == it.sourceId ==> x == it
    ensures Find(items, it.source, it.sourceId) == Ok(it)
  {
    var m := Provenance(items, it.source, it.sourceId);
    assert Distinct(items);
    SelectDistinct(items, (x: Item) => x.source == it.source && x.sourceId == it.sourceId);
    assert it in m;
    AtMostOne(m, it);
  }

  /** Two stored Items with the same provenance make `find` raise rather than pick one. */
  lemma FindAmbiguous(items: seq<Item>, i: nat, j: nat)
    requires i < j < |items|
    requires items[i].source == items[j].source && items[i].sourceId == items[j].sourceId
    requires items[i] != items[j]
    ensures Find(items, items[i].source, items[i].sourceId) == Err(MultipleObjectsReturned("Item"))
  {
    assert items[i] in items && items[j] in items;
  }

  /** `get_for_model`: the Items of one content type. */
  function ForModel(items: seq<Item>, ctype: string): (r: seq<Item>)
    ensures forall x :: x in r <==> x in items && x.ctype == ctype
  {
    Select(items, (x: Item) => x.ctype == ctype)
  }

  /** The latest timestamp of a non-empty selection, or `epoch` for an empty one. */
  function Latest(s: seq<Item>, epoch: int): (r: int)
    ensures |s| == 0 ==> r == epoch
    ensures |s| > 0 ==> exists k :: 0 <= k < |s| && s[k].timestamp == r
    ensures forall k :: 0 <= k < |s| ==> s[k].timestamp <= r
    decreases |s|
  {
    if |s| == 0 then epoch
    else if |s| == 1 then s[0].timestamp
    else
      var m := Latest(s[1..], epoch);
      assert forall k :: 1 <= k < |s| ==> s[k] == s[1..][k - 1];
      if s[0].timestamp >= m then s[0].timestamp else m
  }

  /**
   * `get_last_update_of_model(model, **kwargs)`: the latest timestamp among the
   * model's Items that pass the extra filter `keep`, or `epoch`
   * (`datetime.fromtimestamp(0)`) when there are none.
   */
  function LastUpdate(items: seq<Item>, ctype: string, keep: Item -> bool, epoch: int): (r: int)
    ensures (forall x :: x in items && x.ctype == ctype ==> !keep(x)) ==> r == epoch
    ensures forall x :: x in items && x.ctype == ctype && keep(x) ==> x.timestamp <= r
    ensures (exists x :: x in items && x.ctype == ctype && keep(x)) ==>
      exists x :: x in items && x.ctype == ctype && keep(x) && x.timestamp == r
  {
    LatestOfSelection(items, ctype, keep, epoch);
    Latest(Select(ForModel(items, ctype), keep), epoch)
  }

  lemma LatestOfSelection(items: seq<Item>, ctype: string, keep: Item -> bool, epoch: int)
    ensures var s := Select(ForModel(items, ctype), keep);
      var r := Latest(s, epoch);
      ((forall x :: x in items && x.ctype == ctype ==> !keep(x)) ==> r == epoch) &&
      (forall x :: x in items && x.ctype == ctype && keep(x) ==> x.timestamp <= r) &&
      ((exists x :: x in items && x.ctype == ctype && keep(x)) ==>
        exists x :: x in items && x.ctype == ctype && keep(x) && x.timestamp == r)
  {
    var s := Select(ForModel(items, ctype), keep);
    var r := Latest(s, epoch);
    assert forall x :: x in s <==> x in items && x.ctype == ctype && keep(x);
    forall x | x in items && x.ctype == ctype && keep(x) ensures x.timestamp <= r {
      var k :| 0 <= k < |s| && s[k] == x;
    }
    if |s| > 0 {
      var k :| 0 <= k < |s| && s[k].timestamp == r;
      assert s[k] in s;
    }
  }

  /** Storing an Item later than every stored Item of its type moves that type's checkpoint to it. */
  lemma StoreAdvancesCheckpoint(items: seq<Item>, it: Item, epoch: int)
    requires UniqueKeys(items)
    requires forall x :: x in items && x.ctype == it.ctype ==> x.timestamp <= it.timestamp
    ensures LastUpdate(Store(items, it), it.ctype, (_: Item) => true, epoch) == it.timestamp
  {
    var r := Store(items, it);
    var m := LastUpdate(r, it.ctype, (_: Item) => true, epoch);
    assert it in r;
    var x :| x in r && x.ctype == it.ctype && x.timestamp == m;
  }

  /** `__cmp__`: Items compare by timestamp alone. */
  function Compare(a: Item, b: Item): (r: int)
    ensures r == 0 <==> a.timestamp == b.timestamp
    ensures r < 0 <==> a.timestamp < b.timestamp
  {
    if a.timestamp < b.timestamp then -1 else if a.timestamp > b.timestamp then 1 else 0
  }

  /** The default ordering `-timestamp`: `a` may be listed before `b`. */
  predicate Later(a: Item, b: Item) {
    a.timestamp >= b.timestamp
  }

  /** The listing order agrees with `__cmp__`: `a` may precede `b` iff it does not compare below it. */
  lemma LaterIsCompare(a: Item, b: Item)
    ensures Later(a, b) <==> Compare(a, b) >= 0
    ensures Compare(a, b) == -Compare(b, a)
  {
  }

  /** `Item.objects.all()`: every Item, latest first, equal timestamps in stored order. */
  function Listing(items: seq<Item>): seq<Item> {
    Sorting.Sort(items, Later)
  }

  lemma LaterTotal()
    ensures Sorting.Total(Later)
  {
    forall a: Item, b: Item ensures Later(a, b) || Later(b, a) {
    }
  }

  /** The listing is in descending timestamp order and lists every Item once. */
  lemma ListingOrdered(items: seq<Item>)
    ensures Sorting.Sorted(Listing(items), Later)
    ensures multiset(Listing(items)) == multiset(items)
  {
    LaterTotal();
    Sorting.SortSorted(items, Later);
  }

  /** Sorting the listing again in reverse timestamp order returns it unchanged. */
  lemma ListingIsSorted(items: seq<Item>)
    ensures Sorting.Sort(Listing(items), Later) == Listing(items)
  {
    ListingOrdered(items);
    Sorting.SortOfSorted(Listing(items), Later);
  }

  /** `__unicode__`: the model class name and the stored display string. */
  function ItemString(it: Item): string {
    it.ctype + ": " + it.objectStr
  }

  /** A class name without a colon is recovered from the text before the first colon, and the display string after it. */
  lemma ItemStringParts(it: Item)
    requires ':' !in it.ctype
    ensures var s := ItemString(it);
      IndexOf(s, ':') == Some(|it.ctype|) && s[..|it.ctype|] == it.ctype && s[|it.ctype| + 2..] == it.objectStr
  {
    var s := ItemString(it);
    var n := |it.ctype|;
    assert s[..n] == it.ctype;
    assert s[n] == ':';
    Urls.IndexOfAt(s, ':', n);
    assert s[n + 2..] == it.objectStr;
  }
}

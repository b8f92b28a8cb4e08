/**
 * The loop shape the updaters share: walk a listing newest first, turn each
 * entry into a candidate record, and stop at the first entry the checkpoint
 * has already seen.
 */
module Scans {
  import opened Wrappers
  import opened Failures

  /**
   * `f` applied to the elements of `xs` in order until the first one `stop`
   * holds for, which ends the walk; the first failure of `f` propagates.
   */
  function TakeMap<E, C>(xs: seq<E>, stop: E -> bool, f: E -> Result<C, Failure>): (r: Result<seq<C>, Failure>)
    ensures r.Ok? ==> |r.value| <= |xs|
    ensures r.Ok? ==> forall i :: 0 <= i < |r.value| ==> !stop(xs[i]) && f(xs[i]) == Ok(r.value[i])
    ensures r.Ok? && |r.value| < |xs| ==> stop(xs[|r.value|])
    ensures r.Err? ==> exists i :: 0 <= i < |xs| && f(xs[i]) == Err(r.error) && forall k :: 0 <= k <= i ==> !stop(xs[k])
    decreases |xs|
  {
    if |xs| == 0 || stop(xs[0]) then Ok([])
    else
      match f(xs[0])
      case Err(e) => Err(e)
      case Ok(c) =>
        match TakeMap(xs[1..], stop, f)
        case Err(e) =>
          assert forall i :: 1 <= i < |xs| ==> xs[i] == xs[1..][i - 1];
          Err(e)
        case Ok(rest) =>
          var r := [c] + rest;
          assert forall i :: 1 <= i < |r| ==> r[i] == rest[i - 1] && xs[i] == xs[1..][i - 1];
          Ok(r)
  }

  /** The walk of a listing that no element ends: every element is turned into a candidate. */
  function Never<E>(): E -> bool {
    (e: E) => false
  }

  /** Without a stopping element the walk yields one candidate per element, in order. */
  lemma TakeMapAll<E, C>(xs: seq<E>, f: E -> Result<C, Failure>)
    requires TakeMap(xs, Never(), f).Ok?
    ensures |TakeMap(xs, Never(), f).value| == |xs|
    ensures forall i :: 0 <= i < |xs| ==> f(xs[i]) == Ok(TakeMap(xs, Never(), f).value[i])
  {
  }

  /** Without a stopping element the walk fails exactly when `f` fails on some element. */
  lemma {:induction false} TakeMapAllOk<E, C>(xs: seq<E>, f: E -> Result<C, Failure>)
    ensures TakeMap(xs, Never(), f).Ok? <==> forall i :: 0 <= i < |xs| ==> f(xs[i]).Ok?
    decreases |xs|
  {
    if |xs| > 0 {
      TakeMapAllOk(xs[1..], f);
      assert forall i :: 1 <= i < |xs| ==> xs[i] == xs[1..][i - 1];
    }
  }

  /** An element before which, and at which, `stop` never holds lies before the first one it holds for. */
  lemma BeforeStop<E>(xs: seq<E>, stop: E -> bool, n: nat, i: nat)
    requires n <= |xs| && (n < |xs| ==> stop(xs[n]))
    requires i < |xs| && forall k :: 0 <= k <= i ==> !stop(xs[k])
    ensures i < n
  {
  }

  /** An element that `stop` holds for, and everything after it, is never looked at. */
  lemma {:induction false} TakeMapStops<E, C>(xs: seq<E>, more: seq<E>, stop: E -> bool, f: E -> Result<C, Failure>)
    requires exists k :: 0 <= k < |xs| && stop(xs[k])
    ensures TakeMap(xs + more, stop, f) == TakeMap(xs, stop, f)
    decreases |xs|
  {
    if !stop(xs[0]) {
      assert (xs + more)[1..] == xs[1..] + more;
      var k :| 0 <= k < |xs| && stop(xs[k]);
      assert xs[1..][k - 1] == xs[k];
      TakeMapStops(xs[1..], more, stop, f);
    }
  }

  /** The walk over each page of a paged listing in turn, each page ending at its own first stopping element. */
  function TakeMapPages<E, C>(pages: seq<seq<E>>, stop: E -> bool, f: E -> Result<C, Failure>): Result<seq<C>, Failure>
    decreases |pages|
  {
    if |pages| == 0 then Ok([])
    else
      var cs :- TakeMap(pages[0], stop, f);
      var rest :- TakeMapPages(pages[1..], stop, f);
      Ok(cs + rest)
  }

  /**
   * A stopping element ends only its own page: an element of any page is
   * taken when nothing before it on that page, nor itself, stops the walk,
   * whatever earlier pages held.
   */
  lemma {:induction false} TakeMapPagesTakes<E, C>(pages: seq<seq<E>>, stop: E -> bool, f: E -> Result<C, Failure>,
                                                  j: nat, i: nat)
    requires TakeMapPages(pages, stop, f).Ok?
    requires j < |pages| && i < |pages[j]|
    requires forall k :: 0 <= k <= i ==> !stop(pages[j][k])
    ensures f(pages[j][i]).Ok? && f(pages[j][i]).value in TakeMapPages(pages, stop, f).value
    decreases j
  {
    var cs := TakeMap(pages[0], stop, f).value;
    var rest := TakeMapPages(pages[1..], stop, f).value;
    if j == 0 {
      BeforeStop(pages[0], stop, |cs|, i);
      assert cs[i] in cs + rest;
    } else {
      assert pages[1..][j - 1] == pages[j];
      TakeMapPagesTakes(pages[1..], stop, f, j - 1, i);
    }
  }

  /** Everything the walk yields is what `f` made of an element that does not stop it. */
  lemma {:induction false} TakeMapPagesFrom<E, C>(pages: seq<seq<E>>, stop: E -> bool, f: E -> Result<C, Failure>)
    requires TakeMapPages(pages, stop, f).Ok?
    ensures forall c :: c in TakeMapPages(pages, stop, f).value ==> exists e :: !stop(e) && f(e) == Ok(c)
    decreases |pages|
  {
    if |pages| > 0 {
      var cs := TakeMap(pages[0], stop, f).value;
      TakeMapPagesFrom(pages[1..], stop, f);
      forall c | c in cs ensures exists e :: !stop(e) && f(e) == Ok(c) {
        var i :| 0 <= i < |cs| && cs[i] == c;
        assert !stop(pages[0][i]) && f(pages[0][i]) == Ok(c);
      }
    }
  }

  /**
   * The walk over listings fetched one per key, in key order, each listing
   * walked whole; the first failure, of a fetch or of `f`, propagates.
   */
  function FetchEach<K, E, C>(keys: seq<K>, fetch: K -> Result<seq<E>, Failure>, f: E -> Result<C, Failure>)
    : Result<seq<C>, Failure>
    decreases |keys|
  {
    if |keys| == 0 then Ok([])
    else
      var xs :- fetch(keys[0]);
      var cs :- TakeMap(xs, Never(), f);
      var rest :- FetchEach(keys[1..], fetch, f);
      Ok(cs + rest)
  }

  /** Everything the walk yields is what `f` made of an element fetched for one of the keys. */
  lemma {:induction false} FetchEachFrom<K, E, C>(keys: seq<K>, fetch: K -> Result<seq<E>, Failure>, f: E -> Result<C, Failure>)
    requires FetchEach(keys, fetch, f).Ok?
    ensures forall c :: c in FetchEach(keys, fetch, f).value ==>
      exists k, e :: k in keys && fetch(k).Ok? && e in fetch(k).value && f(e) == Ok(c)
    decreases |keys|
  {
    if |keys| > 0 {
      var xs := fetch(keys[0]).value;
      var cs := TakeMap(xs, Never(), f).value;
      TakeMapAll(xs, f);
      FetchEachFrom(keys[1..], fetch, f);
      forall c | c in FetchEach(keys, fetch, f).value
        ensures exists k, e :: k in keys && fetch(k).Ok? && e in fetch(k).value && f(e) == Ok(c)
      {
        if c in cs {
          var i :| 0 <= i < |cs| && cs[i] == c;
          assert keys[0] in keys && xs[i] in fetch(keys[0]).value && f(xs[i]) == Ok(c);
        } else {
          var k, e :| k in keys[1..] && fetch(k).Ok? && e in fetch(k).value && f(e) == Ok(c);
          assert k in keys;
        }
      }
    }
  }

  /**
   * The entries `keep` accepts, each turned into a candidate by `f`, in
   * order; a failure of `keep` on any entry propagates, the first one first.
   */
  function KeepMap<E, C>(xs: seq<E>, keep: E -> Result<bool, Failure>, f: E -> C): (r: Result<seq<C>, Failure>)
    ensures r.Ok? <==> forall i :: 0 <= i < |xs| ==> keep(xs[i]).Ok?
    ensures r.Ok? ==> |r.value| <= |xs|
    decreases |xs|
  {
    if |xs| == 0 then Ok([])
    else
      assert forall i :: 1 <= i < |xs| ==> xs[i] == xs[1..][i - 1];
      match keep(xs[0])
      case Err(e) => Err(e)
      case Ok(k) =>
        match KeepMap(xs[1..], keep, f)
        case Err(e) => Err(e)
        case Ok(rest) => if k then Ok([f(xs[0])] + rest) else Ok(rest)
  }

  /** The failure is that of the first entry `keep` fails on. */
  lemma {:induction false} KeepMapError<E, C>(xs: seq<E>, keep: E -> Result<bool, Failure>, f: E -> C)
    requires KeepMap(xs, keep, f).Err?
    ensures exists i :: (0 <= i < |xs| && keep(xs[i]) == Err(KeepMap(xs, keep, f).error) &&
      forall j :: 0 <= j < i ==> keep(xs[j]).Ok?)
    decreases |xs|
  {
    if keep(xs[0]).Ok? {
      KeepMapError(xs[1..], keep, f);
      var i :| 0 <= i < |xs[1..]| && keep(xs[1..][i]) == Err(KeepMap(xs[1..], keep, f).error) &&
        forall j :: 0 <= j < i ==> keep(xs[1..][j]).Ok?;
      assert xs[1..][i] == xs[i + 1];
      assert forall j :: 1 <= j < i + 1 ==> xs[j] == xs[1..][j - 1];
    } else {
      assert keep(xs[0]) == Err(KeepMap(xs, keep, f).error);
    }
  }

  /** Every accepted entry yields a candidate, and every candidate comes from an accepted entry. */
  lemma {:induction false} KeepMapMembers<E, C>(xs: seq<E>, keep: E -> Result<bool, Failure>, f: E -> C)
    requires KeepMap(xs, keep, f).Ok?
    ensures forall i :: 0 <= i < |xs| && keep(xs[i]) == Ok(true) ==> f(xs[i]) in KeepMap(xs, keep, f).value
    ensures forall c :: c in KeepMap(xs, keep, f).value ==> exists e :: e in xs && keep(e) == Ok(true) && f(e) == c
    decreases |xs|
  {
    if |xs| > 0 {
      KeepMapMembers(xs[1..], keep, f);
      var r := KeepMap(xs, keep, f).value;
      var rest := KeepMap(xs[1..], keep, f).value;
      assert r == if keep(xs[0]) == Ok(true) then [f(xs[0])] + rest else rest;
      forall i | 0 <= i < |xs| && keep(xs[i]) == Ok(true) ensures f(xs[i]) in r {
        if i > 0 {
          assert xs[i] == xs[1..][i - 1];
        }
      }
      forall c | c in r ensures exists e :: e in xs && keep(e) == Ok(true) && f(e) == c {
        if c !in rest {
          assert xs[0] in xs;
        } else {
          var e :| e in xs[1..] && keep(e) == Ok(true) && f(e) == c;
          assert e in xs;
        }
      }
    }
  }

  /** Kept candidates come out in entry order: the candidates of a concatenation are those of each part, in turn. */
  lemma {:induction false} KeepMapAppend<E, C>(a: seq<E>, b: seq<E>, keep: E -> Result<bool, Failure>, f: E -> C)
    requires KeepMap(a, keep, f).Ok?
    ensures KeepMap(a + b, keep, f).Ok? == KeepMap(b, keep, f).Ok?
    ensures KeepMap(b, keep, f).Ok? ==>
      KeepMap(a + b, keep, f).value == KeepMap(a, keep, f).value + KeepMap(b, keep, f).value
    decreases |a|
  {
    if |a| == 0 {
      assert a + b == b;
    } else {
      assert (a + b)[0] == a[0] && (a + b)[1..] == a[1..] + b;
      KeepMapAppend(a[1..], b, keep, f);
      var k := keep(a[0]).value;
      var ra := KeepMap(a[1..], keep, f).value;
      assert KeepMap(a, keep, f).value == if k then [f(a[0])] + ra else ra;
      if KeepMap(b, keep, f).Ok? {
        var rb := KeepMap(b, keep, f).value;
        assert KeepMap(a + b, keep, f).value == if k then [f(a[0])] + (ra + rb) else ra + rb;
        if k {
          assert [f(a[0])] + (ra + rb) == ([f(a[0])] + ra) + rb;
        }
      }
    }
  }

  /** `reversed(xs)`: the last element first. */
  function Reverse<T>(xs: seq<T>): (r: seq<T>)
    ensures |r| == |xs|
    ensures forall i :: 0 <= i < |xs| ==> r[i] == xs[|xs| - 1 - i]
    decreases |xs|
  {
    if |xs| == 0 then [] else Reverse(xs[1..]) + [xs[0]]
  }

  /** Reversing a concatenation reverses each part and swaps them. */
  lemma ReverseAppend<T>(a: seq<T>, b: seq<T>)
    ensures Reverse(a + b) == Reverse(b) + Reverse(a)
  {
    var r := Reverse(a + b);
    var q := Reverse(b) + Reverse(a);
    forall i | 0 <= i < |r| ensures r[i] == q[i] {
      if i < |b| {
        assert r[i] == (a + b)[|a| + |b| - 1 - i] == b[|b| - 1 - i];
      } else {
        assert r[i] == (a + b)[|a| + |b| - 1 - i] == a[|a| - 1 - (i - |b|)];
      }
    }
  }

  /**
   * `run` for each key in turn, every run appending to one shared list; the
   * first failing run ends the walk with its failure.
   */
  function Concat<K, C>(keys: seq<K>, run: K -> Result<seq<C>, Failure>): (r: Result<seq<C>, Failure>)
    decreases |keys|
  {
    if |keys| == 0 then Ok([])
    else
      var cs :- run(keys[0]);
      var rest :- Concat(keys[1..], run);
      Ok(cs + rest)
  }

  /** The shared list holds the runs' outputs in key order: the walk over a concatenation is the walk over each part, in turn. */
  lemma {:induction false} ConcatAppend<K, C>(a: seq<K>, b: seq<K>, run: K -> Result<seq<C>, Failure>)
    requires Concat(a, run).Ok?
    ensures Concat(a + b, run).Ok? == Concat(b, run).Ok?
    ensures Concat(b, run).Ok? ==> Concat(a + b, run).value == Concat(a, run).value + Concat(b, run).value
    decreases |a|
  {
    if |a| == 0 {
      assert a + b == b;
    } else {
      assert (a + b)[0] == a[0] && (a + b)[1..] == a[1..] + b;
      ConcatAppend(a[1..], b, run);
      if Concat(b, run).Ok? {
        var cs := run(a[0]).value;
        var ra := Concat(a[1..], run).value;
        var rb := Concat(b, run).value;
        assert Concat(a + b, run).value == cs + (ra + rb);
        assert cs + (ra + rb) == (cs + ra) + rb;
      }
    }
  }

  /** The walk succeeds exactly when every run does. */
  lemma {:induction false} ConcatOk<K, C>(keys: seq<K>, run: K -> Result<seq<C>, Failure>)
    ensures Concat(keys, run).Ok? <==> forall i :: 0 <= i < |keys| ==> run(keys[i]).Ok?
    decreases |keys|
  {
    if |keys| > 0 {
      ConcatOk(keys[1..], run);
      assert forall i :: 1 <= i < |keys| ==> keys[i] == keys[1..][i - 1];
    }
  }

  /** Everything the walk yields was yielded by the run of one of the keys. */
  lemma {:induction false} ConcatFrom<K, C>(keys: seq<K>, run: K -> Result<seq<C>, Failure>)
    requires Concat(keys, run).Ok?
    ensures forall c :: c in Concat(keys, run).value ==> exists k :: k in keys && run(k).Ok? && c in run(k).value
    decreases |keys|
  {
    if |keys| > 0 {
      ConcatFrom(keys[1..], run);
      forall c | c in Concat(keys, run).value ensures exists k :: k in keys && run(k).Ok? && c in run(k).value {
        if c !in run(keys[0]).value {
          var k :| k in keys[1..] && run(k).Ok? && c in run(k).value;
          assert k in keys;
        }
      }
    }
  }
}

/**
 * The entry point `update`: which configured providers are active, which of
 * them a run selects, and how one provider's failure is kept from the others.
 */
module Orchestrator {
  import opened Wrappers
  import opened Failures
  import opened Tables
  import opened Records
  import opened Pipeline
  import Strings

  /**
   * An entry of the `JELLYROLL_PROVIDERS` setting: the provider's module path
   * and what importing the module and instantiating its registered provider
   * class yields.
   */
  datatype Configured = Configured(path: string, load: Result<Provider, Failure>)

  /**
   * `active_providers`: the configured providers whose instance is enabled,
   * by path, in configuration order. An exception while importing or
   * instantiating one propagates and ends the call.
   */
  function ActiveProviders(config: seq<Configured>): (r: Result<Table<Provider>, Failure>)
    ensures r.Ok? ==> KeysUnique(r.value)
    decreases |config|
  {
    if |config| == 0 then Ok([])
    else
      var prev := ActiveProviders(config[..|config| - 1]);
      if prev.Err? then Err(prev.error)
      else
        match config[|config| - 1].load
        case Err(e) => Err(e)
        case Ok(p) =>
          if p.enabled then Ok(Put(prev.value, config[|config| - 1].path, p)) else Ok(prev.value)
  }

  /** Finding the active providers fails exactly when some entry fails to load, and then with the first entry's exception. */
  lemma {:induction false} ActiveProvidersFails(config: seq<Configured>)
    ensures ActiveProviders(config).Ok? <==> forall i :: 0 <= i < |config| ==> config[i].load.Ok?
    ensures var r := ActiveProviders(config);
      r.Err? ==> exists i :: 0 <= i < |config| && config[i].load == Err(r.error) &&
                             forall j :: 0 <= j < i ==> config[j].load.Ok?
    decreases |config|
  {
    if |config| > 0 {
      var n := |config| - 1;
      ActiveProvidersFails(config[..n]);
      assert forall i :: 0 <= i < n ==> config[..n][i] == config[i];
    }
  }

  /** Whether an entry loaded a provider that is enabled. */
  predicate LoadsEnabled(c: Configured) {
    c.load.Ok? && c.load.value.enabled
  }

  /** Whether some entry under `path` loaded an enabled provider. */
  predicate ConfiguresActive(config: seq<Configured>, path: string) {
    exists i :: 0 <= i < |config| && config[i].path == path && LoadsEnabled(config[i])
  }

  /** An entry list configures a path as active when its prefix does or its last entry does. */
  lemma ConfiguresActiveLast(config: seq<Configured>, path: string)
    requires |config| > 0
    ensures ConfiguresActive(config, path) <==>
      ConfiguresActive(config[..|config| - 1], path) || (config[|config| - 1].path == path && LoadsEnabled(config[|config| - 1]))
  {
    var n := |config| - 1;
    if ConfiguresActive(config, path) {
      var i :| 0 <= i < |config| && config[i].path == path && LoadsEnabled(config[i]);
      if i < n {
        assert config[..n][i] == config[i];
      }
    }
    if ConfiguresActive(config[..n], path) {
      var i :| 0 <= i < n && config[..n][i].path == path && LoadsEnabled(config[..n][i]);
      assert config[i] == config[..n][i];
    }
  }

  /** The active table holds a path exactly when some entry under that path loaded an enabled provider, and only enabled ones. */
  lemma {:induction false} ActiveProvidersEnabled(config: seq<Configured>)
    requires ActiveProviders(config).Ok?
    ensures forall k :: Lookup(ActiveProviders(config).value, k).Some? <==> ConfiguresActive(config, k)
    ensures forall k :: Lookup(ActiveProviders(config).value, k).Some? ==> Lookup(ActiveProviders(config).value, k).value.enabled
    decreases |config|
  {
    if |config| > 0 {
      var n := |config| - 1;
      var prev := ActiveProviders(config[..n]).value;
      ActiveProvidersEnabled(config[..n]);
      var last := config[n];
      var t := ActiveProviders(config).value;
      if LoadsEnabled(last) {
        var p := last.load.value;
        assert t == Put(prev, last.path, p);
        forall k ensures (Lookup(t, k).Some? <==> ConfiguresActive(config, k)) && (Lookup(t, k).Some? ==> Lookup(t, k).value.enabled) {
          ConfiguresActiveLast(config, k);
          if k != last.path {
            assert Lookup(t, k) == Lookup(prev, k);
          }
        }
      } else {
        assert t == prev;
        forall k ensures Lookup(t, k).Some? <==> ConfiguresActive(config, k) {
          ConfiguresActiveLast(config, k);
        }
      }
    }
  }

  /**
   * The providers `update(providers)` runs: every active one for None,
   * otherwise the active ones that were also requested. Names that are not
   * active are dropped without a word.
   */
  function Selected(active: Table<Provider>, requested: Option<seq<string>>): (r: seq<string>)
    requires KeysUnique(active)
    ensures forall k :: k in r <==> Lookup(active, k).Some? && (requested.None? || k in requested.value)
    ensures forall i, j :: 0 <= i < j < |r| ==> r[i] != r[j]
  {
    var keys := Keys(active);
    assert forall k :: k in keys <==> Lookup(active, k).Some? by {
      forall k ensures k in keys <==> Lookup(active, k).Some? {
        if Lookup(active, k).Some? {
          var i :| 0 <= i < |active| && active[i].0 == k;
          assert keys[i] == k;
        }
      }
    }
    match requested
    case None => keys
    case Some(names) => Filter(keys, names)
  }

  /** The keys that occur in `names`, in table order. */
  function Filter(keys: seq<string>, names: seq<string>): (r: seq<string>)
    requires forall i, j :: 0 <= i < j < |keys| ==> keys[i] != keys[j]
    ensures forall k :: k in r <==> k in keys && k in names
    ensures forall i, j :: 0 <= i < j < |r| ==> r[i] != r[j]
    decreases |keys|
  {
    if |keys| == 0 then []
    else
      var rest := Filter(keys[1..], names);
      assert keys[0] !in keys[1..];
      if keys[0] in names then [keys[0]] + rest else rest
  }

  /** What one run of `update` leaves: the database, each provider's outcome in order, and the exception it raised, if any. */
  datatype Run = Run(db: Db, log: seq<(string, Option<Failure>)>, raised: Option<Failure>)

  /** One provider's turn: a name that is not active raises KeyError, which is logged like any other exception. */
  function RunOne(schema: Schema, active: Table<Provider>, name: string, db: Db, now: int): (Db, Option<Failure>) {
    match Lookup(active, name)
    case None => (db, Some(KeyError(name)))
    case Some(p) => RunUpdate(schema, p, db, now)
  }

  /** A turn for each name: the database it leaves and the exception it logged, if any. */
  type Turn = (string, Db) -> (Db, Option<Failure>)

  /** The turns of one `update` call, against the active table. */
  function Turns(schema: Schema, active: Table<Provider>, now: int): Turn {
    (name: string, db: Db) => RunOne(schema, active, name, db, now)
  }

  /**
   * The loop over the selected providers. Each runs against the database the
   * previous one left. An ordinary exception is logged and the loop goes on;
   * KeyboardInterrupt and SystemExit are re-raised and end the loop.
   */
  function RunAll(turn: Turn, names: seq<string>, db: Db): (r: Run)
    decreases |names|
  {
    if |names| == 0 then Run(db, [], None)
    else
      var name := names[0];
      var (db1, outcome) := turn(name, db);
      if outcome == Some(Interrupted) then Run(db1, [(name, outcome)], Some(Interrupted))
      else
        var rest := RunAll(turn, names[1..], db1);
        Run(rest.db, [(name, outcome)] + rest.log, rest.raised)
  }

  /** Only an interruption ends the loop early; it is then the last entry of the log. */
  lemma {:induction false} RunAllStops(turn: Turn, names: seq<string>, db: Db)
    ensures var r := RunAll(turn, names, db);
      (r.raised.None? ==> |r.log| == |names|) &&
      (r.raised.Some? ==> r.raised == Some(Interrupted) && 0 < |r.log| <= |names| && r.log[|r.log| - 1].1 == Some(Interrupted))
    decreases |names|
  {
    if |names| > 0 {
      var (db1, outcome) := turn(names[0], db);
      if outcome != Some(Interrupted) {
        RunAllStops(turn, names[1..], db1);
      }
    }
  }

  /** The log follows the selection: its i-th entry is the i-th selected provider's outcome. */
  lemma {:induction false} RunAllLog(turn: Turn, names: seq<string>, db: Db)
    ensures var r := RunAll(turn, names, db);
      forall i :: 0 <= i < |r.log| ==> i < |names| && r.log[i].0 == names[i]
    decreases |names|
  {
    if |names| > 0 {
      var (db1, outcome) := turn(names[0], db);
      if outcome != Some(Interrupted) {
        RunAllLog(turn, names[1..], db1);
        var rest := RunAll(turn, names[1..], db1);
        var log := [(names[0], outcome)] + rest.log;
        assert RunAll(turn, names, db).log == log;
        forall i | 0 <= i < |log| ensures i < |names| && log[i].0 == names[i] {
          if i > 0 {
            assert log[i] == rest.log[i - 1] && names[i] == names[1..][i - 1];
          }
        }
      } else {
        assert RunAll(turn, names, db).log == [(names[0], outcome)];
      }
    }
  }

  /** `update(providers)`: find the active providers, select, and run them one after the other. */
  function Update(schema: Schema, config: seq<Configured>, requested: Option<seq<string>>, db: Db, now: int): (r: Run)
    ensures ActiveProviders(config).Err? ==> r == Run(db, [], Some(ActiveProviders(config).error))
    ensures ActiveProviders(config).Ok? && r.raised.None? ==> forall k ::
      (exists i :: 0 <= i < |r.log| && r.log[i].0 == k) <==>
      Lookup(ActiveProviders(config).value, k).Some? && (requested.None? || k in requested.value)
  {
    match ActiveProviders(config)
    case Err(e) => Run(db, [], Some(e))
    case Ok(active) =>
      var names := Selected(active, requested);
      var turn := Turns(schema, active, now);
      var r := RunAll(turn, names, db);
      RunAllLog(turn, names, db);
      RunAllStops(turn, names, db);
      assert r.raised.None? ==> forall k :: (exists i :: 0 <= i < |r.log| && r.log[i].0 == k) <==> k in names by {
        if r.raised.None? {
          forall k ensures (exists i :: 0 <= i < |r.log| && r.log[i].0 == k) <==> k in names {
            if k in names {
              var i :| 0 <= i < |names| && names[i] == k;
              assert r.log[i].0 == k;
            }
          }
        }
      }
      r
  }

  /**
   * Running two lists of providers one after the other is running their
   * concatenation when the first is not interrupted: a failing provider does
   * not stop or alter the ones after it.
   */
  lemma {:induction false} RunAllSplits(turn: Turn, a: seq<string>, b: seq<string>, db: Db)
    requires RunAll(turn, a, db).raised.None?
    ensures var ra := RunAll(turn, a, db);
      var rb := RunAll(turn, b, ra.db);
      RunAll(turn, a + b, db) == Run(rb.db, ra.log + rb.log, rb.raised)
    decreases |a|
  {
    if |a| == 0 {
      assert a + b == b;
      assert [] + RunAll(turn, b, db).log == RunAll(turn, b, db).log;
    } else {
      assert (a + b)[0] == a[0] && (a + b)[1..] == a[1..] + b;
      var name := a[0];
      var (db1, outcome) := turn(name, db);
      assert outcome != Some(Interrupted);
      RunAllSplits(turn, a[1..], b, db1);
      var rA := RunAll(turn, a[1..], db1);
      var rB := RunAll(turn, b, rA.db);
      assert RunAll(turn, a, db) == Run(rA.db, [(name, outcome)] + rA.log, None);
      assert RunAll(turn, a + b, db) == Run(rB.db, [(name, outcome)] + (rA.log + rB.log), rB.raised);
      Strings.SeqAssoc([(name, outcome)], rA.log, rB.log);
    }
  }

  /** The base `enabled()` returns None: a provider class that keeps it is never active, whatever a run requests. */
  lemma DisabledNeverRuns(schema: Schema, config: seq<Configured>, requested: Option<seq<string>>, db: Db, now: int, path: string)
    requires forall i :: 0 <= i < |config| && config[i].path == path ==> config[i].load.Ok? && !config[i].load.value.enabled
    requires ActiveProviders(config).Ok?
    ensures var r := Update(schema, config, requested, db, now);
      forall i :: 0 <= i < |r.log| ==> r.log[i].0 != path
  {
    var active := ActiveProviders(config).value;
    var names := Selected(active, requested);
    var turn := Turns(schema, active, now);
    var r := RunAll(turn, names, db);
    ActiveProvidersEnabled(config);
    RunAllLog(turn, names, db);
    assert Lookup(active, path).None?;
    assert path !in names;
    forall i | 0 <= i < |r.log| ensures r.log[i].0 != path {
      assert r.log[i].0 == names[i];
    }
  }

  /**
   * `register_provider`: the provider class's name under its module path. The
   * guard compares a class with module-name keys and never holds, so a later
   * registration from the same module replaces an earlier one.
   */
  function RegisterProvider(registry: Table<string>, modulePath: string, className: string): (r: Table<string>)
    ensures Lookup(r, modulePath) == Some(className)
    ensures forall m :: m != modulePath ==> Lookup(r, m) == Lookup(registry, m)
  {
    Put(registry, modulePath, className)
  }
}

/**
 * Where providers get the data their updaters read: structured-data URLs
 * registered per model (optionally several under aliases), custom data
 * interfaces, and GData service clients.
 */
module Structured {
  import opened Wrappers
  import opened Failures
  import opened Strings
  import opened Tables

  /** A registered data URL and the name of its format. */
  datatype Endpoint = Endpoint(url: string, format: string)

  /** What `DATA_URLS` holds for one model: its one endpoint, or endpoints by alias. */
  datatype Source = Single(endpoint: Endpoint) | Aliased(endpoints: Table<Endpoint>)

  /** The formats with a processor and an iterator. */
  const Formats: set<string> := {"xml", "json", "rss"}

  /** A falsy alias (None or "") registers the model's one URL. */
  predicate HasAlias(alias: Option<string>) {
    alias.Some? && alias.value != ""
  }

  /**
   * `register_data_url`: without an alias the model's entry becomes the single
   * endpoint, replacing whatever was there. With an alias the endpoint is
   * stored under it, creating the alias table on first use; a model that
   * already has a single endpoint cannot take an alias (the tuple does not
   * support item assignment).
   */
  function RegisterDataUrl(urls: Table<Source>, modelName: string, url: string, format: string, alias: Option<string>)
    : (r: Result<Table<Source>, Failure>)
    ensures var m := Lower(modelName);
      r.Err? <==> HasAlias(alias) && Lookup(urls, m).Some? && Lookup(urls, m).value.Single?
    ensures r.Err? ==> r.error.TypeError?
    ensures r.Ok? && !HasAlias(alias) ==> Lookup(r.value, Lower(modelName)) == Some(Single(Endpoint(url, format)))
    ensures r.Ok? && HasAlias(alias) ==> var m := Lower(modelName);
      Lookup(r.value, m).Some? && Lookup(r.value, m).value.Aliased? &&
      Lookup(Lookup(r.value, m).value.endpoints, alias.value) == Some(Endpoint(url, format))
    ensures r.Ok? && HasAlias(alias) && Lookup(urls, Lower(modelName)).Some? ==> var m := Lower(modelName);
      forall a :: a != alias.value ==>
        Lookup(Lookup(r.value, m).value.endpoints, a) == Lookup(Lookup(urls, m).value.endpoints, a)
    ensures r.Ok? ==> forall k :: k != Lower(modelName) ==> Lookup(r.value, k) == Lookup(urls, k)
  {
    var m := Lower(modelName);
    var e := Endpoint(url, format);
    if HasAlias(alias) then
      match Lookup<Source>(urls, m)
      case None => Ok(Put(urls, m, Aliased(Put([], alias.value, e))))
      case Some(Aliased(es)) => Ok(Put(urls, m, Aliased(Put(es, alias.value, e))))
      case Some(Single(_)) => Err(TypeError("'tuple' object does not support item assignment"))
    else Ok(Put(urls, m, Single(e)))
  }

  /** The data an updater receives: the payload of one source, or payloads by alias. */
  datatype Feed<P> = Whole(payload: P) | ByAlias(payloads: Table<P>)

  /**
   * The processor and iterator registered for an endpoint's format applied to
   * its URL; `fetch` stands for the network fetch and parse. An unknown format
   * raises KeyError before anything is fetched.
   */
  function Process<P>(fetch: Endpoint -> Result<P, Failure>, e: Endpoint): (r: Result<P, Failure>)
    ensures e.format !in Formats ==> r == Err(KeyError(e.format))
    ensures e.format in Formats ==> r == fetch(e)
  {
    if e.format in Formats then fetch(e) else Err(KeyError(e.format))
  }

  /** Every aliased endpoint processed in table order; the first failure propagates. */
  function ProcessAll<P>(fetch: Endpoint -> Result<P, Failure>, es: Table<Endpoint>): (r: Result<Table<P>, Failure>)
    ensures r.Ok? ==> |r.value| == |es|
    ensures r.Ok? ==> forall i :: 0 <= i < |es| ==>
      r.value[i].0 == es[i].0 && Process(fetch, es[i].1) == Ok(r.value[i].1)
    ensures r.Err? <==> exists i :: 0 <= i < |es| && Process(fetch, es[i].1).Err?
    ensures r.Err? ==> exists i :: 0 <= i < |es| && Process(fetch, es[i].1) == Err(r.error)
    decreases |es|
  {
    if |es| == 0 then Ok([])
    else
      var p :- Process(fetch, es[0].1);
      assert forall i :: 1 <= i < |es| ==> es[i] == es[1..][i - 1];
      var rest :- ProcessAll(fetch, es[1..]);
      Ok([(es[0].0, p)] + rest)
  }

  function FeedOf<P>(fetch: Endpoint -> Result<P, Failure>, src: Source): Result<Feed<P>, Failure> {
    match src
    case Single(e) =>
      var p :- Process(fetch, e);
      Ok(Whole(p))
    case Aliased(es) =>
      var ps :- ProcessAll(fetch, es);
      Ok(ByAlias(ps))
  }

  /**
   * A registered custom interface, or the instance `get_custom_data_interface_instance`
   * makes of it; a provider that does not implement that hook passes the interface itself.
   */
  function Custom<P>(iface: P, instantiate: P -> Result<P, Failure>): Result<Feed<P>, Failure> {
    match instantiate(iface)
    case Err(NotImplemented) => Ok(Whole(iface))
    case Err(e) => Err(e)
    case Ok(x) => Ok(Whole(x))
  }

  /**
   * `StructuredDataProvider.get_update_data` as written: a custom interface
   * registered for the model wins; otherwise the loop over `DATA_URLS`
   * returns from its first iteration, so the first registered entry is
   * fetched whichever model asked. With no data URL at all the result is None.
   */
  function GetUpdateData<P>(interfaces: Table<P>, instantiate: P -> Result<P, Failure>, urls: Table<Source>,
                            fetch: Endpoint -> Result<P, Failure>, modelStr: string): Result<Option<Feed<P>>, Failure>
  {
    match Lookup(interfaces, modelStr)
    case Some(iface) =>
      var f :- Custom(iface, instantiate);
      Ok(Some(f))
    case None =>
      if |urls| == 0 then Ok(None)
      else
        var f :- FeedOf(fetch, urls[0].1);
        Ok(Some(f))
  }

  /** The data a model's updater gets does not depend on which model asked, once the first data URL is registered. */
  lemma FirstEntryServesEveryModel<P>(interfaces: Table<P>, instantiate: P -> Result<P, Failure>, urls: Table<Source>,
                                      fetch: Endpoint -> Result<P, Failure>, m1: string, m2: string)
    requires Lookup(interfaces, m1).None? && Lookup(interfaces, m2).None?
    requires |urls| > 0
    ensures GetUpdateData(interfaces, instantiate, urls, fetch, m1) == GetUpdateData(interfaces, instantiate, urls, fetch, m2)
  {
  }

  /**
   * `get_update_data` as its documentation describes it: the data registered
   * for the model that asks, or None when that model has no data URL.
   */
  function GetUpdateDataFor<P>(interfaces: Table<P>, instantiate: P -> Result<P, Failure>, urls: Table<Source>,
                               fetch: Endpoint -> Result<P, Failure>, modelStr: string): (r: Result<Option<Feed<P>>, Failure>)
    ensures Lookup(interfaces, modelStr).None? && Lookup(urls, modelStr).None? ==> r == Ok(None)
    ensures Lookup(interfaces, modelStr).None? && Lookup(urls, modelStr).Some? ==>
      (r.Ok? <==> FeedOf(fetch, Lookup(urls, modelStr).value).Ok?) &&
      (r.Ok? ==> r.value == Some(FeedOf(fetch, Lookup(urls, modelStr).value).value))
  {
    match Lookup(interfaces, modelStr)
    case Some(iface) =>
      var f :- Custom(iface, instantiate);
      Ok(Some(f))
    case None =>
      match Lookup(urls, modelStr)
      case None => Ok(None)
      case Some(src) =>
        var f :- FeedOf(fetch, src);
        Ok(Some(f))
  }

  /**
   * The two agree for a provider whose registered models all share one
   * source, as every provider of the repository registers them: the
   * discrepancy is latent there.
   */
  lemma SharedSourceAgrees<P>(interfaces: Table<P>, instantiate: P -> Result<P, Failure>, urls: Table<Source>,
                              fetch: Endpoint -> Result<P, Failure>, modelStr: string)
    requires Lookup(urls, modelStr).Some?
    requires forall i :: 0 <= i < |urls| ==> urls[i].1 == urls[0].1
    ensures GetUpdateData(interfaces, instantiate, urls, fetch, modelStr) ==
            GetUpdateDataFor(interfaces, instantiate, urls, fetch, modelStr)
  {
    var i :| 0 <= i < |urls| && urls[i] == (modelStr, Lookup(urls, modelStr).value);
  }

  /** Two models with their own URLs: the second model is given the first one's data. */
  lemma SecondModelGetsFirstData(a: Endpoint, b: Endpoint)
    requires a.format in Formats && b.format in Formats && a != b
    ensures var urls := [("photo", Single(a)), ("photoset", Single(b))];
      var fetch := (e: Endpoint) => Ok(e);
      GetUpdateData([], (x: Endpoint) => Ok(x), urls, fetch, "photoset") == Ok(Some(Whole(a))) &&
      GetUpdateDataFor([], (x: Endpoint) => Ok(x), urls, fetch, "photoset") == Ok(Some(Whole(b)))
  {
    var urls := [("photo", Single(a)), ("photoset", Single(b))];
    assert "photo" != "photoset" by {
      assert |"photo"| != |"photoset"|;
    }
    assert Lookup(urls, "photoset") == Some(Single(b));
  }

  /** `GDataProvider.get_update_data`: the model's service client, logged in; a model without one raises KeyError. */
  function GDataUpdateData<P>(clients: Table<P>, login: P -> Result<P, Failure>, modelStr: string): (r: Result<P, Failure>)
    ensures Lookup(clients, modelStr).None? ==> r == Err(KeyError(modelStr))
    ensures Lookup(clients, modelStr).Some? ==> r == login(Lookup(clients, modelStr).value)
  {
    match Lookup(clients, modelStr)
    case None => Err(KeyError(modelStr))
    case Some(c) => login(c)
  }

  /** `GDataProvider.enabled`: both Google settings are defined and the gdata library imported. */
  predicate GDataEnabled(hasUsername: bool, hasPassword: bool, gdataImported: bool) {
    hasUsername && hasPassword && gdataImported
  }
}

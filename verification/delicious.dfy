/**
 * The del.icio.us provider: a minimal API client whose attribute chain names
 * the API method and which retries a failing call, and the bookmark updater
 * that fetches the posts of every date after the checkpoint.
 */
module Delicious {
  import opened Wrappers
  import opened Failures
  import opened Values
  import opened Strings
  import opened Records
  import Pipeline
  import Scans

  const BookmarkName: string := "Bookmark"

  /** The bookmark model: automatic key, other fields in declaration order. */
  const BookmarkCls: ModelCls := ModelCls(BookmarkName, "id",
    ["url", "description", "extended", "thumbnail", "thumbnail_url"], None, true)

  /** `DeliciousClient`: the account and the API method a call goes to. */
  datatype Client = Client(username: string, password: string, path: string)

  /** A client as `get_custom_data_interface_instance` makes it: the method path starts at the API version. */
  function NewClient(username: string, password: string): Client {
    Client(username, password, "v1")
  }

  /** `client.name` (`__getattr__`): a client for the method one level further down the path. */
  function Attr(c: Client, name: string): Client {
    Client(c.username, c.password, c.path + "/" + name)
  }

  /** `client.a.b. ...`: the attribute chain applied left to right. */
  function Chain(c: Client, names: seq<string>): Client
    decreases |names|
  {
    if |names| == 0 then c else Chain(Attr(c, names[0]), names[1..])
  }

  /** The method path of an attribute chain is the names joined by '/', after the client's own path. */
  lemma {:induction false} ChainPath(c: Client, names: seq<string>)
    ensures Chain(c, names).path == Join([c.path] + names, "/")
    ensures Chain(c, names).username == c.username && Chain(c, names).password == c.password
    decreases |names|
  {
    if |names| > 0 {
      var rest := names[1..];
      ChainPath(Attr(c, names[0]), rest);
      JoinCons(c.path + "/" + names[0], rest, "/");
      JoinCons(names[0], rest, "/");
      JoinCons(c.path, [names[0]] + rest, "/");
      assert [names[0]] + rest == names;
      if |rest| > 0 {
        SeqAssoc(c.path + "/", names[0], "/" + Join(rest, "/"));
        SeqAssoc(c.path, "/", names[0] + "/" + Join(rest, "/"));
        SeqAssoc(c.path, "/", names[0]);
      }
    }
  }

  /** The calls the updater makes go to "v1/posts/update", "v1/posts/dates" and "v1/posts/get". */
  lemma PostsPaths(u: string, p: string, call: string)
    ensures Chain(NewClient(u, p), ["posts", call]).path == "v1/posts/" + call
  {
    ChainPath(NewClient(u, p), ["posts", call]);
    assert ["v1"] + ["posts", call] == ["v1", "posts", call];
    JoinSmall("v1", "posts", call, "/");
  }

  /**
   * The outcome of a call (`__call__`) whose attempts turn out as `attempt`
   * says, from attempt `ctr` on. A failed attempt is retried while fewer than
   * three have been made, and the third failure is raised. KeyboardInterrupt
   * and SystemExit are not an `Exception` and are never retried.
   */
  function Retry<T>(attempt: nat -> Result<T, Failure>, ctr: nat): Result<T, Failure>
    requires ctr < 3
    decreases 3 - ctr
  {
    var res := attempt(ctr);
    if res.Ok? || res.error == Interrupted then res
    else if ctr + 1 < 3 then Retry(attempt, ctr + 1)
    else res
  }

  /** Whether attempt `k` failed in a way the client retries. */
  predicate Retried<T>(attempt: nat -> Result<T, Failure>, k: nat) {
    attempt(k).Err? && attempt(k).error != Interrupted
  }

  /**
   * A call makes at most three attempts: its outcome is that of the first
   * attempt that succeeds or is interrupted, or else the third failure.
   */
  lemma {:induction false} RetryOutcome<T>(attempt: nat -> Result<T, Failure>, ctr: nat)
    requires ctr < 3
    ensures exists k :: (ctr <= k < 3 && Retry(attempt, ctr) == attempt(k) &&
      (forall j :: ctr <= j < k ==> Retried(attempt, j)) && (k < 2 ==> !Retried(attempt, k)))
    decreases 3 - ctr
  {
    if Retried(attempt, ctr) && ctr + 1 < 3 {
      RetryOutcome(attempt, ctr + 1);
      var k :| ctr + 1 <= k < 3 && Retry(attempt, ctr + 1) == attempt(k) &&
        (forall j :: ctr + 1 <= j < k ==> Retried(attempt, j)) && (k < 2 ==> !Retried(attempt, k));
      assert Retry(attempt, ctr) == attempt(k);
    } else {
      assert Retry(attempt, ctr) == attempt(ctr);
    }
  }

  /**
   * `__call__` as the loop it is written as, returning the outcome and the
   * number of attempts made; the pause between calls is not modelled.
   */
  method Call<T>(attempt: nat -> Result<T, Failure>) returns (r: Result<T, Failure>, attempts: nat)
    ensures r == Retry(attempt, 0)
    ensures 1 <= attempts <= 3 && r == attempt(attempts - 1)
    ensures forall k :: 0 <= k < attempts - 1 ==> Retried(attempt, k)
    ensures Retried(attempt, attempts - 1) ==> attempts == 3
  {
    var ctr: nat := 0;
    while true
      invariant ctr < 3
      invariant Retry(attempt, ctr) == Retry(attempt, 0)
      invariant forall k :: 0 <= k < ctr ==> Retried(attempt, k)
      decreases 3 - ctr
    {
      var res := attempt(ctr);
      if res.Ok? || res.error == Interrupted {
        return res, ctr + 1;
      }
      if ctr + 1 < 3 {
        ctr := ctr + 1;
      } else {
        return res, ctr + 1;
      }
    }
  }

  /** The attributes of a `post` element of a "posts/get" answer. */
  type Post = map<string, string>

  /**
   * The candidate record of a post: every attribute as text, with `tags`
   * copied from `tag`, `url` from `href`, and `timestamp` parsed from `time`
   * by `parse` (dateutil). A post missing one of the three raises KeyError.
   */
  function Candidate(post: Post, parse: string -> int): (r: Result<Data, Failure>)
    ensures r.Err? <==> "tag" !in post || "href" !in post || "time" !in post
    ensures r.Err? ==> r.error.KeyError?
    ensures r.Ok? ==> r.value.Keys == post.Keys + {"tags", "url", "timestamp"}
    ensures r.Ok? ==> forall k :: k in post && k !in {"tags", "url", "timestamp"} ==> r.value[k] == Str(post[k])
    ensures r.Ok? ==> r.value["tags"] == Str(post["tag"]) && r.value["url"] == Str(post["href"])
    ensures r.Ok? ==> r.value["timestamp"] == Time(parse(post["time"]))
  {
    var info: Data := map k | k in post :: Str(post[k]);
    if "tag" !in post then Err(KeyError("tag"))
    else if "href" !in post then Err(KeyError("href"))
    else if "time" !in post then Err(KeyError("time"))
    else Ok(info["tags" := Str(post["tag"])]["url" := Str(post["href"])]["timestamp" := Time(parse(post["time"]))])
  }

  /**
   * The dates whose posts are fetched: the listed dates after the checkpoint,
   * last listed first.
   */
  function DatesToFetch(dates: seq<int>, checkpoint: int): (r: seq<int>)
    ensures forall d :: d in r <==> d in dates && d > checkpoint
    decreases |dates|
  {
    if |dates| == 0 then []
    else
      var n := |dates| - 1;
      var rest := DatesToFetch(dates[..n], checkpoint);
      assert forall d :: d in dates <==> d in dates[..n] || d == dates[n];
      if dates[n] > checkpoint then [dates[n]] + rest else rest
  }

  /** Listing more dates puts the later ones' fetches first: the listing is walked in reverse. */
  lemma {:induction false} DatesToFetchAppend(a: seq<int>, b: seq<int>, checkpoint: int)
    ensures DatesToFetch(a + b, checkpoint) == DatesToFetch(b, checkpoint) + DatesToFetch(a, checkpoint)
    decreases |b|
  {
    if |b| == 0 {
      assert a + b == a;
    } else {
      var n := |b| - 1;
      assert (a + b)[..|a + b| - 1] == a + b[..n];
      assert (a + b)[|a + b| - 1] == b[n];
      DatesToFetchAppend(a, b[..n], checkpoint);
      SeqAssoc(if b[n] > checkpoint then [b[n]] else [], DatesToFetch(b[..n], checkpoint), DatesToFetch(a, checkpoint));
    }
  }

  /** The candidate of each post. */
  function Candidates(parse: string -> int): Post -> Result<Data, Failure> {
    (p: Post) => Candidate(p, parse)
  }

  /** What the API answers during one run, each call after its retries; dates come parsed. */
  datatype Api = Api(
    lastPost: Result<int, Failure>,                  // posts/update: the time of the account's last post
    dates: Result<seq<int>, Failure>,                // posts/dates: the dates that have posts
    postsOn: int -> Result<seq<Post>, Failure>)      // posts/get for one date

  /**
   * `update_bookmark`: nothing when the account's last post is no later than
   * the checkpoint `get_last_update_of_model(Bookmark)`; otherwise the posts
   * of every listed date after the checkpoint, later dates first.
   */
  function UpdateBookmark(api: Api, checkpoint: int, parse: string -> int): (r: Result<seq<Data>, Failure>)
    ensures api.lastPost.Err? ==> r == Err(api.lastPost.error)
    ensures api.lastPost.Ok? && api.lastPost.value <= checkpoint ==> r == Ok([])
  {
    var last :- api.lastPost;
    if last <= checkpoint then Ok([])
    else
      var dates :- api.dates;
      Scans.FetchEach(DatesToFetch(dates, checkpoint), api.postsOn, Candidates(parse))
  }

  /** Only posts of dates after the checkpoint become candidates, and only when the last post is after it. */
  lemma UpdateBookmarkAfterCheckpoint(api: Api, checkpoint: int, parse: string -> int)
    requires UpdateBookmark(api, checkpoint, parse).Ok? && UpdateBookmark(api, checkpoint, parse).value != []
    ensures api.lastPost.Ok? && api.lastPost.value > checkpoint && api.dates.Ok?
    ensures forall c :: c in UpdateBookmark(api, checkpoint, parse).value ==>
      exists d, p :: d in api.dates.value && d > checkpoint && api.postsOn(d).Ok? && p in api.postsOn(d).value &&
        Candidate(p, parse) == Ok(c)
  {
    var ds := DatesToFetch(api.dates.value, checkpoint);
    Scans.FetchEachFrom(ds, api.postsOn, Candidates(parse));
  }

  /**
   * `source_id`: the post's hash. A record without one raises KeyError; a
   * non-text hash is not a source id.
   */
  function SourceId(extra: Data): (r: Result<string, Failure>)
    ensures "hash" !in extra ==> r == Err(KeyError("hash"))
    ensures r.Ok? <==> "hash" in extra && extra["hash"].Str?
    ensures r.Ok? ==> r.value == extra["hash"].s
  {
    var v :- Get(extra, "hash");
    AsText(v)
  }

  /** A post with a hash keeps it as its source id, so a post fetched again maps to the same Item. */
  lemma CandidateSourceId(post: Post, parse: string -> int)
    requires Candidate(post, parse).Ok? && "hash" in post
    ensures SourceId(Candidate(post, parse).value) == Ok(post["hash"])
  {
    assert "hash" != "tags" && "hash" != "url" && "hash" != "timestamp";
  }

  /** `get_default_fields`: the base fields without the thumbnail and its url. */
  function DefaultFields(cls: ModelCls): (r: seq<string>)
    ensures forall f :: f in r <==> f in cls.fields && f != "thumbnail" && f != "thumbnail_url"
  {
    Pipeline.Without(Pipeline.Without(Pipeline.BaseDefaultFields(cls), "thumbnail"), "thumbnail_url")
  }

  /**
   * `DeliciousProvider()`. Its `Meta` names the bookmark model, but nothing
   * reads `Meta` and the constructor registers no model; `enabled` is the
   * base class's, which returns None.
   */
  function Provider(api: Api, epoch: int, parse: string -> int): (p: Pipeline.Provider)
    ensures p.registry == [] && !p.enabled
  {
    Pipeline.Provider(
      "DeliciousProvider", false, {"update_bookmark"}, [],
      (cls: ModelCls, d: Data) => SourceId(d),
      DefaultFields,
      (db: Db, m: string) =>
        if m == "bookmark" then UpdateBookmark(api, Timeline.LastUpdate(db.items, BookmarkName, (x: Timeline.Item) => true, epoch), parse)
        else Err(AttributeError("update_" + m)),
      (db: Db, m: string, cls: ModelCls, d: Data) => Err(NotImplemented),
      (db: Db, o: Obj, m: string, cls: ModelCls, d: Data, created: bool) => Ok(db),
      (db: Db, o: Obj, d: Data) => Ok((db, o)))
  }

  /** Running the provider, should it ever be selected, fetches nothing and changes nothing. */
  lemma RunChangesNothing(schema: Schema, api: Api, epoch: int, parse: string -> int, db: Db, now: int)
    ensures Pipeline.RunUpdate(schema, Provider(api, epoch, parse), db, now) == (db, None)
  {
    var p := Provider(api, epoch, parse);
    assert Pipeline.Queue(p) == [];
  }
}

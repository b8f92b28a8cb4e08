/**
 * The two template tags: `{% get_commits_for_repository "name" as var [limit n] %}`
 * puts a repository's commits, latest first, into the template context, and
 * `{% get_photoset "title" as var %}` puts a photo set's photos there. Each
 * tag's token list is checked when the template is compiled; rendering never
 * writes any text.
 */
module TemplateTags {
  import opened Wrappers
  import opened Failures
  import opened Values
  import opened Strings
  import opened Timeline
  import opened Records
  import Sorting
  import CodeProviders
  import Flickr

  /** A template context: variable name to the list of model instances put there. */
  type Context = map<string, seq<Obj>>

  /** The character `.strip('"')` removes. */
  const Quote: set<char> := {'"'}

  /** `%r` of a token: the token in single quotes. */
  function Repr(s: string): string {
    "'" + s + "'"
  }

  /** A tag name as written between double quotes. */
  function Quoted(s: string): string {
    "\"" + s + "\""
  }

  /** A name that neither starts nor ends with a double quote loses exactly its surrounding quotes. */
  lemma StripQuoted(name: string)
    requires |name| > 0 && name[0] != '"' && name[|name| - 1] != '"'
    ensures Strip(Quoted(name), Quote) == name
  {
    var q := Quoted(name);
    assert Leading(q[1..], Quote) == 0;
    assert Leading(q, Quote) == 1;
    assert StripLeft(q, Quote) == name + "\"";
    var t := name + "\"";
    assert t[..|t| - 1] == name;
    assert StripRight(name, Quote) == name;
  }

  // get_commits_for_repository

  /** `CodeCommitsForRepositoryNode`: the repository's name, the context variable and the optional limit. */
  datatype CommitsNode = CommitsNode(name: string, contextVar: string, limit: Option<int>)

  /** The token list has the tag's shape: four tokens, or six with 'limit' fifth, and 'as' third. */
  predicate CommitsShape(bits: seq<string>) {
    (|bits| == 4 || |bits| == 6) && bits[2] == "as" && (|bits| == 6 ==> bits[4] == "limit")
  }

  /**
   * `get_commits_for_repository`: the token count, then the 'as', then the
   * 'limit' are checked, in that order; the limit is `int` of the sixth token.
   * The error message names the first token, so a list without one raises
   * IndexError.
   */
  function ParseCommitsTag(bits: seq<string>): (r: Result<CommitsNode, Failure>)
    ensures r.Ok? <==> CommitsShape(bits) && (|bits| == 6 ==> ParseInt(bits[5]).Some?)
    ensures r.Ok? ==> r.value.name == Strip(bits[1], Quote) && r.value.contextVar == bits[3]
    ensures r.Ok? ==> r.value.limit == if |bits| == 6 then ParseInt(bits[5]) else None
    ensures r.Err? ==> (r.error.TemplateSyntaxError? <==> |bits| > 0 && !CommitsShape(bits))
    ensures r.Err? && r.error.ValueError? ==> CommitsShape(bits)
  {
    if |bits| != 4 && |bits| != 6 then
      if |bits| == 0 then Err(IndexError("list index out of range"))
      else Err(TemplateSyntaxError(Repr(bits[0]) + " tag takes three or five arguments"))
    else if bits[2] != "as" then
      Err(TemplateSyntaxError("second argument to " + Repr(bits[0]) + " tag should be 'as'"))
    else if |bits| == 6 && bits[4] != "limit" then
      Err(TemplateSyntaxError("fourth argument to " + Repr(bits[0]) + " tag should be 'limit'"))
    else if |bits| == 6 then
      match ParseInt(bits[5])
      case None => Err(ValueError("invalid literal for int()"))
      case Some(n) => Ok(CommitsNode(Strip(bits[1], Quote), bits[3], Some(n)))
    else Ok(CommitsNode(Strip(bits[1], Quote), bits[3], None))
  }

  /** The tokens of a tag written for a node: the quoted name, 'as', the variable, and 'limit' with the numeral when there is a limit. */
  function CommitsTag(n: CommitsNode): seq<string> {
    ["get_commits_for_repository", Quoted(n.name), "as", n.contextVar] +
    (if n.limit.Some? then ["limit", IntToString(n.limit.value)] else [])
  }

  /** Parsing the tag written for a node gives the node back. */
  lemma ParseCommitsTagOfTag(n: CommitsNode)
    requires |n.name| > 0 && n.name[0] != '"' && n.name[|n.name| - 1] != '"'
    ensures ParseCommitsTag(CommitsTag(n)) == Ok(n)
  {
    StripQuoted(n.name);
    var bits := CommitsTag(n);
    assert bits[1] == Quoted(n.name) && bits[2] == "as" && bits[3] == n.contextVar;
    if n.limit.Some? {
      assert |bits| == 6 && bits[4] == "limit" && bits[5] == IntToString(n.limit.value);
      IntToStringParses(n.limit.value);
    } else {
      assert |bits| == 4;
    }
  }

  /** The listing never goes up in time: every Item is at least as late as every Item after it. */
  predicate Descending(s: seq<Item>) {
    forall i, j :: 0 <= i < j < |s| ==> s[i].timestamp >= s[j].timestamp
  }

  /** A listing in which each Item is at least as late as the next never goes up in time. */
  lemma {:induction false} SortedDescending(s: seq<Item>)
    requires Sorting.Sorted(s, Later)
    ensures Descending(s)
    decreases |s|
  {
    if |s| > 1 {
      assert Sorting.Sorted(s[1..], Later) by {
        assert forall j :: 1 <= j < |s| ==> s[1..][j - 1] == s[j];
      }
      SortedDescending(s[1..]);
      assert forall j :: 1 <= j < |s| ==> s[j] == s[1..][j - 1];
      assert Later(s[0], s[1]);
    }
  }

  /** The commit an Item refers to exists and belongs to the repository with key `repoPk`. */
  predicate OfRepository(rows: seq<Obj>, x: Item, repoPk: string) {
    Fetch(rows, CodeProviders.CommitName, x.objectId).Some? &&
    Has(Fetch(rows, CodeProviders.CommitName, x.objectId).value.fields, "repository",
        Value.Ref(CodeProviders.RepositoryName, repoPk))
  }

  /**
   * The Items whose commit belongs to the repository, in listed order. An
   * Item whose commit is gone has `object` None, and reading its repository
   * raises AttributeError.
   */
  function CommitItems(rows: seq<Obj>, its: seq<Item>, repoPk: string): (r: Result<seq<Item>, Failure>)
    ensures r.Ok? <==> forall x :: x in its ==> Fetch(rows, CodeProviders.CommitName, x.objectId).Some?
    ensures r.Ok? ==> forall x :: x in r.value <==> x in its && OfRepository(rows, x, repoPk)
    decreases |its|
  {
    if |its| == 0 then Ok([])
    else
      assert forall x :: x in its <==> x == its[0] || x in its[1..];
      match Fetch(rows, CodeProviders.CommitName, its[0].objectId)
      case None => Err(AttributeError("repository"))
      case Some(o) =>
        var rest :- CommitItems(rows, its[1..], repoPk);
        if Has(o.fields, "repository", Value.Ref(CodeProviders.RepositoryName, repoPk)) then Ok([its[0]] + rest) else Ok(rest)
  }

  /** An Item no earlier than every Item of a descending listing may head it. */
  lemma ConsDescending(a: Item, rest: seq<Item>)
    requires Descending(rest)
    requires forall x :: x in rest ==> a.timestamp >= x.timestamp
    ensures Descending([a] + rest)
  {
    var s := [a] + rest;
    forall i, j | 0 <= i < j < |s| ensures s[i].timestamp >= s[j].timestamp {
      assert s[j] == rest[j - 1];
      if i > 0 {
        assert s[i] == rest[i - 1];
      }
    }
  }

  /** Picking Items out of a listing keeps its order: a descending listing gives a descending selection. */
  lemma {:induction false} CommitItemsDescending(rows: seq<Obj>, its: seq<Item>, repoPk: string)
    requires CommitItems(rows, its, repoPk).Ok? && Descending(its)
    ensures Descending(CommitItems(rows, its, repoPk).value)
    decreases |its|
  {
    if |its| > 0 {
      var tail := its[1..];
      assert Descending(tail) by {
        assert forall j :: 1 <= j < |its| ==> tail[j - 1] == its[j];
      }
      var o := Fetch(rows, CodeProviders.CommitName, its[0].objectId).value;
      var rest := CommitItems(rows, tail, repoPk).value;
      CommitItemsDescending(rows, tail, repoPk);
      if Has(o.fields, "repository", Value.Ref(CodeProviders.RepositoryName, repoPk)) {
        assert CommitItems(rows, its, repoPk).value == [its[0]] + rest;
        assert forall j :: 0 <= j < |tail| ==> its[0].timestamp >= tail[j].timestamp by {
          assert forall j :: 0 <= j < |tail| ==> tail[j] == its[j + 1];
        }
        assert forall x :: x in rest ==> x in tail;
        ConsDescending(its[0], rest);
      } else {
        assert CommitItems(rows, its, repoPk).value == rest;
      }
    }
  }

  /** The commits the Items refer to, in the Items' order. */
  function Objects(rows: seq<Obj>, its: seq<Item>): (r: seq<Obj>)
    requires forall x :: x in its ==> Fetch(rows, CodeProviders.CommitName, x.objectId).Some?
    ensures |r| == |its| && forall i :: 0 <= i < |its| ==> Fetch(rows, CodeProviders.CommitName, its[i].objectId) == Some(r[i])
  {
    seq(|its|, i requires 0 <= i < |its| => Fetch(rows, CodeProviders.CommitName, its[i].objectId).value)
  }

  /** The CodeCommit Items, latest first, whose commit belongs to the repository. */
  function RepositoryListing(rows: seq<Obj>, items: seq<Item>, repoPk: string): Result<seq<Item>, Failure> {
    CommitItems(rows, Listing(ForModel(items, CodeProviders.CommitName)), repoPk)
  }

  /**
   * The repository's listing holds exactly the CodeCommit Items whose commit
   * belongs to it, latest first.
   */
  lemma RepositoryListingSound(rows: seq<Obj>, items: seq<Item>, repoPk: string)
    requires RepositoryListing(rows, items, repoPk).Ok?
    ensures var r := RepositoryListing(rows, items, repoPk).value;
      Descending(r) &&
      forall x :: x in r <==> x in items && x.ctype == CodeProviders.CommitName && OfRepository(rows, x, repoPk)
  {
    var m := ForModel(items, CodeProviders.CommitName);
    ListingOrdered(m);
    SortedDescending(Listing(m));
    CommitItemsDescending(rows, Listing(m), repoPk);
    assert forall x :: x in Listing(m) <==> x in multiset(Listing(m));
    assert forall x :: x in m <==> x in multiset(m);
  }

  /** `if self.limit:` — a limit of None or 0 keeps the whole list; any other is a Python slice `[:limit]`. */
  function Limited(commits: seq<Obj>, limit: Option<int>): (r: seq<Obj>)
    ensures r <= commits
    ensures limit.None? || limit == Some(0) ==> r == commits
    ensures limit.Some? && limit.value > 0 ==> |r| == if limit.value <= |commits| then limit.value else |commits|
    ensures limit.Some? && limit.value < 0 ==> |r| == if -limit.value <= |commits| then |commits| + limit.value else 0
  {
    if limit.Some? && limit.value != 0 then SliceTo(commits, limit.value) else commits
  }

  /**
   * `CodeCommitsForRepositoryNode.render`: the repository is read by name;
   * when there is none the context is left as it is, and several with the
   * name raise. Otherwise the repository's commits, latest first and cut to
   * the limit, are put in the context variable. The output is always "".
   */
  function RenderCommits(node: CommitsNode, ctx: Context, rows: seq<Obj>, items: seq<Item>)
    : (r: Result<(Context, string), Failure>)
    ensures r.Ok? ==> r.value.1 == ""
    ensures r.Ok? ==> forall k :: k in ctx && k != node.contextVar ==> k in r.value.0 && r.value.0[k] == ctx[k]
  {
    match GetWhere(rows, CodeProviders.RepositoryName, "name", Str(node.name))
    case Err(e) => if e.DoesNotExist? then Ok((ctx, "")) else Err(e)
    case Ok(repo) =>
      var its :- RepositoryListing(rows, items, repo.pk.value);
      Ok((ctx[node.contextVar := Limited(Objects(rows, its), node.limit)], ""))
  }

  /** A name no stored repository has leaves the context unchanged. */
  lemma UnknownRepositoryUnchanged(node: CommitsNode, ctx: Context, rows: seq<Obj>, items: seq<Item>)
    requires forall o :: o in rows ==>
      !(o.cls.name == CodeProviders.RepositoryName && o.pk.Some? && Has(o.fields, "name", Str(node.name)))
    ensures RenderCommits(node, ctx, rows, items) == Ok((ctx, ""))
  {
  }

  /**
   * With the repository found and its commits readable, the variable holds
   * the repository's listing, latest first, cut to the limit only when the
   * limit is non-zero.
   */
  lemma RenderCommitsShows(node: CommitsNode, ctx: Context, rows: seq<Obj>, items: seq<Item>, repo: Obj)
    requires GetWhere(rows, CodeProviders.RepositoryName, "name", Str(node.name)) == Ok(repo)
    requires RepositoryListing(rows, items, repo.pk.value).Ok?
    ensures var full := RepositoryListing(rows, items, repo.pk.value).value;
      var r := RenderCommits(node, ctx, rows, items);
      r.Ok? && node.contextVar in r.value.0 &&
      r.value.0[node.contextVar] <= Objects(rows, full) &&
      (node.limit.None? || node.limit == Some(0) ==> r.value.0[node.contextVar] == Objects(rows, full)) &&
      (node.limit.Some? && node.limit.value > 0 ==>
        |r.value.0[node.contextVar]| == if node.limit.value <= |full| then node.limit.value else |full|)
  {
  }

  // get_photoset

  /** `PhotosetNode`: the set's title and the context variable. */
  datatype PhotosetNode = PhotosetNode(name: string, contextVar: string)

  /** `get_photoset`: four tokens with 'as' third, checked in that order. */
  function ParsePhotosetTag(bits: seq<string>): (r: Result<PhotosetNode, Failure>)
    ensures r.Ok? <==> |bits| == 4 && bits[2] == "as"
    ensures r.Ok? ==> r.value == PhotosetNode(Strip(bits[1], Quote), bits[3])
    ensures r.Err? ==> (r.error.TemplateSyntaxError? <==> |bits| > 0)
  {
    if |bits| != 4 then
      if |bits| == 0 then Err(IndexError("list index out of range"))
      else Err(TemplateSyntaxError(Repr(bits[0]) + " tag takes three arguments"))
    else if bits[2] != "as" then
      Err(TemplateSyntaxError("second argument to " + Repr(bits[0]) + " tag should be 'as'"))
    else Ok(PhotosetNode(Strip(bits[1], Quote), bits[3]))
  }

  /** The tokens of a tag written for a node. */
  function PhotosetTag(n: PhotosetNode): seq<string> {
    ["get_photoset", Quoted(n.name), "as", n.contextVar]
  }

  /** Parsing the tag written for a node gives the node back. */
  lemma ParsePhotosetTagOfTag(n: PhotosetNode)
    requires |n.name| > 0 && n.name[0] != '"' && n.name[|n.name| - 1] != '"'
    ensures ParsePhotosetTag(PhotosetTag(n)) == Ok(n)
  {
    StripQuoted(n.name);
  }

  /**
   * `PhotosetNode.render`: the set is read by title; when there is none the
   * context is left as it is, and several with the title raise. Otherwise
   * the set's photos (`photoset.photos.all()`, in stored order) are put in the
   * context variable. The output is always "".
   */
  function RenderPhotoset(node: PhotosetNode, ctx: Context, rows: seq<Obj>): (r: Result<(Context, string), Failure>)
    ensures r.Ok? ==> r.value.1 == ""
    ensures r.Ok? ==> forall k :: k in ctx && k != node.contextVar ==> k in r.value.0 && r.value.0[k] == ctx[k]
    ensures r.Err? ==> r.error == MultipleObjectsReturned(Flickr.PhotosetName)
  {
    match GetWhere(rows, Flickr.PhotosetName, "title", Str(node.name))
    case Err(e) => if e.DoesNotExist? then Ok((ctx, "")) else Err(e)
    case Ok(found) =>
      Ok((ctx[node.contextVar := RowsWhere(rows, Flickr.PhotoName, "photoset", Value.Ref(Flickr.PhotosetName, found.pk.value))], ""))
  }

  /** A title no stored set has leaves the context unchanged. */
  lemma UnknownPhotosetUnchanged(node: PhotosetNode, ctx: Context, rows: seq<Obj>)
    requires forall o :: o in rows ==>
      !(o.cls.name == Flickr.PhotosetName && o.pk.Some? && Has(o.fields, "title", Str(node.name)))
    ensures RenderPhotoset(node, ctx, rows) == Ok((ctx, ""))
  {
  }

  /** With the set found, the variable holds exactly the stored photos linked to it. */
  lemma RenderPhotosetShows(node: PhotosetNode, ctx: Context, rows: seq<Obj>, found: Obj)
    requires GetWhere(rows, Flickr.PhotosetName, "title", Str(node.name)) == Ok(found)
    ensures var r := RenderPhotoset(node, ctx, rows);
      r.Ok? && node.contextVar in r.value.0 &&
      forall o :: o in r.value.0[node.contextVar] <==> (o in rows && o.cls.name == Flickr.PhotoName && o.pk.Some? &&
        Has(o.fields, "photoset", Value.Ref(Flickr.PhotosetName, found.pk.value)))
  {
  }
}

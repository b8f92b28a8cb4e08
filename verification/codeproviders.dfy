/**
 * The code repository providers. A provider of one source-control kind walks
 * the stored repositories of that kind, reads each one's checkpoint off the
 * timeline and lets the kind's updater append that repository's new commits
 * to one shared candidate list. The git and Subversion updaters turn a
 * repository's log into commit candidates, oldest first, keeping only the
 * repository owner's commits.
 */
module CodeProviders {
  import opened Wrappers
  import opened Failures
  import opened Values
  import opened Strings
  import opened Timeline
  import opened Records
  import opened Externals
  import Code
  import Pipeline
  import Scans

  const CommitName: string := "CodeCommit"
  const RepositoryName: string := "CodeRepository"

  /** CodeCommit: automatic key, then its repository, revision and message; it is followed by the timeline. */
  const CommitCls: ModelCls := ModelCls(CommitName, "id", ["repository", "revision", "message"], None, true)
  const CommitKey := "codecommit"

  /** A stored CodeRepository row: its key and its fields. */
  datatype Repo = Repo(pk: string, repository: Code.Repository)

  /** The repository table is keyed: no two rows share a key. */
  predicate UniquePks(repos: seq<Repo>) {
    forall a, b :: a in repos && b in repos && a.pk == b.pk ==> a == b
  }

  /**
   * The repository a record's `repository` value stands for. Only a stored
   * repository has a `url`; any other value raises AttributeError.
   */
  function RepoOf(repos: seq<Repo>, v: Value): (r: Result<Repo, Failure>)
    ensures r.Ok? <==> exists k :: k in repos && v == Ref(RepositoryName, k.pk)
    ensures r.Ok? ==> r.value in repos && v == Ref(RepositoryName, r.value.pk)
    ensures r.Err? ==> r.error == AttributeError("url")
    decreases |repos|
  {
    if |repos| == 0 then Err(AttributeError("url"))
    else if v == Ref(RepositoryName, repos[0].pk) then Ok(repos[0])
    else
      assert forall k :: k in repos <==> k == repos[0] || k in repos[1..];
      RepoOf(repos[1..], v)
  }

  /** In a keyed table a reference finds the row it was made from. */
  lemma RepoOfRow(repos: seq<Repo>, rp: Repo)
    requires UniquePks(repos) && rp in repos
    ensures RepoOf(repos, Ref(RepositoryName, rp.pk)) == Ok(rp)
  {
  }

  /**
   * `source_id`: the repository's url, ":r" and the revision. The repository
   * is read and its url taken before the revision is read; a missing key
   * raises KeyError.
   */
  function SourceId(repos: seq<Repo>, ext: Externals, extra: Data): (r: Result<string, Failure>)
    ensures "repository" !in extra ==> r == Err(KeyError("repository"))
    ensures "repository" in extra && RepoOf(repos, extra["repository"]).Ok? && "revision" !in extra ==>
      r == Err(KeyError("revision"))
    ensures r.Ok? <==> ("repository" in extra && RepoOf(repos, extra["repository"]).Ok? &&
      "revision" in extra && Show(extra["revision"], ext.showTime).Ok?)
    ensures r.Ok? ==> StartsWith(r.value, RepoOf(repos, extra["repository"]).value.repository.url + ":r")
  {
    var rv :- Get(extra, "repository");
    var rp :- RepoOf(repos, rv);
    var revision :- Get(extra, "revision");
    var shown :- Show(revision, ext.showTime);
    Ok(rp.repository.url + ":r" + shown)
  }

  /**
   * `get_last_updated`: the latest CodeCommit Item whose source id starts
   * with the repository's url, or `epoch` when there is none.
   */
  function Checkpoint(items: seq<Item>, url: string, epoch: int): int {
    LastUpdate(items, CommitName, (x: Item) => StartsWith(x.sourceId, url), epoch)
  }

  /** A prefix of a prefix is a prefix. */
  lemma PrefixTransitive(u: string, v: string, w: string)
    requires StartsWith(v, u) && StartsWith(w, v)
    ensures StartsWith(w, u)
  {
    assert w[..|u|] == w[..|v|][..|u|];
  }

  /**
   * A stored commit Item whose source id was made for a record of a
   * repository is counted by that repository's checkpoint: the checkpoint is
   * at least as late as the commit.
   */
  lemma CheckpointCoversOwnCommits(items: seq<Item>, repos: seq<Repo>, ext: Externals, extra: Data, epoch: int, it: Item)
    requires SourceId(repos, ext, extra).Ok?
    requires it in items && it.ctype == CommitName && it.sourceId == SourceId(repos, ext, extra).value
    ensures it.timestamp <= Checkpoint(items, RepoOf(repos, extra["repository"]).value.repository.url, epoch)
  {
    var url := RepoOf(repos, extra["repository"]).value.repository.url;
    PrefixTransitive(url, url + ":r", it.sourceId);
  }

  /**
   * The filter is a plain prefix test, so a repository whose url is a prefix
   * of another's also counts the other's commits: its checkpoint is at least
   * as late as any of them.
   */
  lemma CheckpointCountsLongerUrls(items: seq<Item>, url: string, longer: string, epoch: int, it: Item)
    requires StartsWith(longer, url)
    requires it in items && it.ctype == CommitName && StartsWith(it.sourceId, longer)
    ensures it.timestamp <= Checkpoint(items, url, epoch)
  {
    PrefixTransitive(url, longer, it.sourceId);
  }

  /** `get_update_data`: `CodeRepository.objects.filter(type=kind)`, in stored order. */
  function ForType(repos: seq<Repo>, kind: string): (r: seq<Repo>)
    ensures forall k :: k in r <==> k in repos && k.repository.kind == kind
    decreases |repos|
  {
    if |repos| == 0 then []
    else
      assert forall k :: k in repos <==> k == repos[0] || k in repos[1..];
      var rest := ForType(repos[1..], kind);
      if repos[0].repository.kind == kind then [repos[0]] + rest else rest
  }

  /** A kind's updater: one repository and its checkpoint in, that repository's new commit candidates out. */
  type Updater = (Repo, int) -> Result<seq<Data>, Failure>

  /** One step of the walk: the repository's checkpoint is read, then its updater runs. */
  function Step(items: seq<Item>, epoch: int, updater: Updater): Repo -> Result<seq<Data>, Failure> {
    (rp: Repo) => updater(rp, Checkpoint(items, rp.repository.url, epoch))
  }

  /**
   * `update_codecommit`: one fresh list, and every repository in turn
   * appending its commits to it; the first failing repository ends the update.
   */
  function UpdateCommits(repos: seq<Repo>, items: seq<Item>, epoch: int, updater: Updater): Result<seq<Data>, Failure> {
    Scans.Concat(repos, Step(items, epoch, updater))
  }

  /** The update succeeds exactly when every repository's updater does, each run with its own checkpoint. */
  lemma UpdateCommitsOk(repos: seq<Repo>, items: seq<Item>, epoch: int, updater: Updater)
    ensures UpdateCommits(repos, items, epoch, updater).Ok? <==>
      forall i :: 0 <= i < |repos| ==> updater(repos[i], Checkpoint(items, repos[i].repository.url, epoch)).Ok?
  {
    Scans.ConcatOk(repos, Step(items, epoch, updater));
  }

  /** Every candidate came from the updater run on one of the repositories with that repository's checkpoint. */
  lemma UpdateCommitsFrom(repos: seq<Repo>, items: seq<Item>, epoch: int, updater: Updater)
    requires UpdateCommits(repos, items, epoch, updater).Ok?
    ensures forall c :: c in UpdateCommits(repos, items, epoch, updater).value ==>
      exists rp :: (rp in repos && updater(rp, Checkpoint(items, rp.repository.url, epoch)).Ok? &&
        c in updater(rp, Checkpoint(items, rp.repository.url, epoch)).value)
  {
    var step := Step(items, epoch, updater);
    Scans.ConcatFrom(repos, step);
    forall c | c in UpdateCommits(repos, items, epoch, updater).value
      ensures exists rp :: (rp in repos && updater(rp, Checkpoint(items, rp.repository.url, epoch)).Ok? &&
        c in updater(rp, Checkpoint(items, rp.repository.url, epoch)).value)
    {
      var rp :| rp in repos && step(rp).Ok? && c in step(rp).value;
      assert step(rp) == updater(rp, Checkpoint(items, rp.repository.url, epoch));
    }
  }

  /** The shared list keeps repository order: the candidates of earlier repositories come first. */
  lemma UpdateCommitsInOrder(a: seq<Repo>, b: seq<Repo>, items: seq<Item>, epoch: int, updater: Updater)
    requires UpdateCommits(a, items, epoch, updater).Ok? && UpdateCommits(b, items, epoch, updater).Ok?
    ensures UpdateCommits(a + b, items, epoch, updater) ==
      Ok(UpdateCommits(a, items, epoch, updater).value + UpdateCommits(b, items, epoch, updater).value)
  {
    Scans.ConcatAppend(a, b, Step(items, epoch, updater));
  }

  // git

  /** A commit as `commits_since` lists it; `committed` is its time, already in local time. */
  datatype GitCommit = GitCommit(id: string, authorEmail: string, message: string, committed: int)

  /** The day of a local time, counted from 1970-01-01; `.date()` of the datetime. */
  function Day(t: int): int {
    t / 86400
  }

  /** 1969-12-31, the day of the epoch checkpoint west of Greenwich. */
  const SentinelDay: int := -1

  /** A checkpoint on 1969-12-31 is moved to 1970-01-01 00:00; any other is kept. */
  function FixSentinel(t: int): (r: int)
    ensures Day(r) != SentinelDay
    ensures Day(t) != SentinelDay ==> r == t
    ensures Day(t) == SentinelDay ==> r == 0
  {
    if Day(t) == SentinelDay then 0 else t
  }

  /**
   * With no commit stored the checkpoint is `fromtimestamp(0)`, the epoch in
   * the host's local time; for every time-zone offset from -12 to +14 hours
   * git is then asked for the commits since 1970-01-01.
   */
  lemma EmptyCheckpointAsksFromEpochDay(items: seq<Item>, url: string, offset: int)
    requires -12 * 3600 <= offset <= 14 * 3600
    requires forall x :: x in items ==> x.ctype != CommitName
    ensures Day(FixSentinel(Checkpoint(items, url, offset))) == 0
  {
    assert Checkpoint(items, url, offset) == offset;
  }

  /** A git commit's candidate: its id as the revision, the repository, its message and its time. */
  function GitRecord(rp: Repo, c: GitCommit): Data {
    map["revision" := Str(c.id), "repository" := Ref(RepositoryName, rp.pk),
        "message" := Str(c.message), "timestamp" := Time(c.committed)]
  }

  function GitAuthored(rp: Repo): GitCommit -> Result<bool, Failure> {
    (c: GitCommit) => Ok(c.authorEmail == rp.repository.username)
  }

  function GitCandidate(rp: Repo): GitCommit -> Data {
    (c: GitCommit) => GitRecord(rp, c)
  }

  /** The repository owner's commits among `commits`, oldest first. */
  function GitKept(rp: Repo, commits: seq<GitCommit>): Result<seq<Data>, Failure> {
    Scans.KeepMap(Scans.Reverse(commits), GitAuthored(rp), GitCandidate(rp))
  }

  /**
   * `update_codecommit_git`: the checkpoint's sentinel fixed, the commits
   * since its day fetched (`log` stands for the clone and `commits_since`,
   * newest first), and the owner's commits appended in reverse of that order.
   */
  function UpdateGit(log: (string, int) -> Result<seq<GitCommit>, Failure>, rp: Repo, checkpoint: int)
    : Result<seq<Data>, Failure>
  {
    var commits :- log(rp.repository.url, Day(FixSentinel(checkpoint)));
    GitKept(rp, commits)
  }

  function GitUpdater(log: (string, int) -> Result<seq<GitCommit>, Failure>): Updater {
    (rp: Repo, checkpoint: int) => UpdateGit(log, rp, checkpoint)
  }

  /**
   * The candidates are exactly the owner's commits among those listed for the
   * checkpoint's fixed day: every such commit has one, and nothing else does.
   */
  lemma GitCandidatesAreOwnersCommits(log: (string, int) -> Result<seq<GitCommit>, Failure>, rp: Repo, checkpoint: int,
                                      commits: seq<GitCommit>)
    requires log(rp.repository.url, Day(FixSentinel(checkpoint))) == Ok(commits)
    ensures UpdateGit(log, rp, checkpoint).Ok?
    ensures forall c :: c in commits && c.authorEmail == rp.repository.username ==>
      GitRecord(rp, c) in UpdateGit(log, rp, checkpoint).value
    ensures forall d :: d in UpdateGit(log, rp, checkpoint).value ==>
      exists c :: c in commits && c.authorEmail == rp.repository.username && d == GitRecord(rp, c)
  {
    var xs := Scans.Reverse(commits);
    Scans.KeepMapMembers(xs, GitAuthored(rp), GitCandidate(rp));
    forall c | c in commits ensures c in xs {
      var i :| 0 <= i < |commits| && commits[i] == c;
      assert xs[|commits| - 1 - i] == c;
    }
    forall c | c in xs ensures c in commits {
      var i :| 0 <= i < |xs| && xs[i] == c;
    }
  }

  /** The commits are appended in reverse of the listed order: those listed later come first. */
  lemma GitReversesListing(rp: Repo, earlier: seq<GitCommit>, later: seq<GitCommit>)
    ensures GitKept(rp, earlier + later) == Ok(GitKept(rp, later).value + GitKept(rp, earlier).value)
  {
    Scans.ReverseAppend(earlier, later);
    Scans.KeepMapAppend(Scans.Reverse(later), Scans.Reverse(earlier), GitAuthored(rp), GitCandidate(rp));
  }

  /** A git candidate's source id is its repository's url, ":r" and the commit id. */
  lemma GitSourceId(repos: seq<Repo>, ext: Externals, rp: Repo, c: GitCommit)
    requires UniquePks(repos) && rp in repos
    ensures SourceId(repos, ext, GitRecord(rp, c)) == Ok(rp.repository.url + ":r" + c.id)
  {
    RepoOfRow(repos, rp);
  }

  // Subversion

  /** A log entry as pysvn lists it; `date` is its time, already in local time. */
  datatype SvnEntry = SvnEntry(number: int, author: string, message: string, date: int)

  /** A Subversion entry's candidate: the revision number as a numeral, the repository, the message and the time. */
  function SvnRecord(rp: Repo, e: SvnEntry): Data {
    map["revision" := Str(IntToString(e.number)), "repository" := Ref(RepositoryName, rp.pk),
        "message" := Str(e.message), "timestamp" := Time(e.date)]
  }

  function SvnAuthored(rp: Repo): SvnEntry -> Result<bool, Failure> {
    (e: SvnEntry) => Ok(e.author == rp.repository.username)
  }

  function SvnCandidate(rp: Repo): SvnEntry -> Data {
    (e: SvnEntry) => SvnRecord(rp, e)
  }

  /** The repository owner's entries among `entries`, in reverse of the log order. */
  function SvnKept(rp: Repo, entries: seq<SvnEntry>): Result<seq<Data>, Failure> {
    Scans.KeepMap(Scans.Reverse(entries), SvnAuthored(rp), SvnCandidate(rp))
  }

  /**
   * `update_codecommit_svn`: the log from the head back to the checkpoint
   * (`log` stands for `pysvn.Client().log`), reversed, the owner's entries
   * kept. Without pysvn the module name is None and `pysvn.Revision` raises.
   */
  function UpdateSvn(pysvn: bool, log: (string, int) -> Result<seq<SvnEntry>, Failure>, rp: Repo, checkpoint: int)
    : (r: Result<seq<Data>, Failure>)
    ensures !pysvn ==> r == Err(AttributeError("Revision"))
  {
    if !pysvn then Err(AttributeError("Revision"))
    else
      var entries :- log(rp.repository.url, checkpoint);
      SvnKept(rp, entries)
  }

  function SvnUpdater(pysvn: bool, log: (string, int) -> Result<seq<SvnEntry>, Failure>): Updater {
    (rp: Repo, checkpoint: int) => UpdateSvn(pysvn, log, rp, checkpoint)
  }

  /** The candidates are exactly the owner's entries of the log: every such entry has one, and nothing else does. */
  lemma SvnCandidatesAreOwnersEntries(log: (string, int) -> Result<seq<SvnEntry>, Failure>, rp: Repo, checkpoint: int,
                                      entries: seq<SvnEntry>)
    requires log(rp.repository.url, checkpoint) == Ok(entries)
    ensures UpdateSvn(true, log, rp, checkpoint).Ok?
    ensures forall e :: e in entries && e.author == rp.repository.username ==>
      SvnRecord(rp, e) in UpdateSvn(true, log, rp, checkpoint).value
    ensures forall d :: d in UpdateSvn(true, log, rp, checkpoint).value ==>
      exists e :: e in entries && e.author == rp.repository.username && d == SvnRecord(rp, e)
  {
    var xs := Scans.Reverse(entries);
    Scans.KeepMapMembers(xs, SvnAuthored(rp), SvnCandidate(rp));
    forall e | e in entries ensures e in xs {
      var i :| 0 <= i < |entries| && entries[i] == e;
      assert xs[|entries| - 1 - i] == e;
    }
    forall e | e in xs ensures e in entries {
      var i :| 0 <= i < |xs| && xs[i] == e;
    }
  }

  /** The entries are processed in reverse of the log order: those listed later come first. */
  lemma SvnReversesLog(rp: Repo, earlier: seq<SvnEntry>, later: seq<SvnEntry>)
    ensures SvnKept(rp, earlier + later) == Ok(SvnKept(rp, later).value + SvnKept(rp, earlier).value)
  {
    Scans.ReverseAppend(earlier, later);
    Scans.KeepMapAppend(Scans.Reverse(later), Scans.Reverse(earlier), SvnAuthored(rp), SvnCandidate(rp));
  }

  /** A Subversion candidate's revision reads back as its revision number, and its short form is the whole numeral. */
  lemma SvnRevisionIsNumeral(rp: Repo, e: SvnEntry)
    ensures var d := SvnRecord(rp, e);
      d["revision"].Str? && ParseInt(d["revision"].s) == Some(e.number) &&
      Code.FormatRevision(d["revision"].s) == d["revision"].s
  {
    IntToStringParses(e.number);
    Code.NumeralRevisionUnchanged(e.number);
  }

  /** A Subversion candidate's source id is its repository's url, ":r" and the revision number's numeral. */
  lemma SvnSourceId(repos: seq<Repo>, ext: Externals, rp: Repo, e: SvnEntry)
    requires UniquePks(repos) && rp in repos
    ensures SourceId(repos, ext, SvnRecord(rp, e)) == Ok(rp.repository.url + ":r" + IntToString(e.number))
  {
    RepoOfRow(repos, rp);
  }

  // The providers

  /** A code repository provider of one kind, before its constructor registers CodeCommit. */
  function Unregistered(name: string, kind: string, enabled: bool, repos: seq<Repo>, ext: Externals, epoch: int,
                        updater: Updater): Pipeline.Provider
  {
    Pipeline.Provider(
      name, enabled, {"update_" + Lower(CommitName)}, [],
      (cls: ModelCls, d: Data) => SourceId(repos, ext, d),
      Pipeline.BaseDefaultFields,
      (db: Db, m: string) =>
        if m == CommitKey then UpdateCommits(ForType(repos, kind), db.items, epoch, updater)
        else Err(AttributeError("update_" + m)),
      (db: Db, m: string, cls: ModelCls, d: Data) => Err(NotImplemented),
      (db: Db, o: Obj, m: string, cls: ModelCls, d: Data, created: bool) => Ok(db),
      (db: Db, o: Obj, d: Data) => Ok((db, o)))
  }

  /**
   * `CodeRepositoryProvider()` for one kind: CodeCommit alone is registered,
   * at priority 0, and the base hooks are kept. `repos` is the stored
   * CodeRepository table and `epoch` the local time of the epoch.
   */
  function Provider(name: string, kind: string, enabled: bool, repos: seq<Repo>, ext: Externals, epoch: int,
                    updater: Updater): (r: Pipeline.Provider)
    ensures Pipeline.QueuesOne(r, CommitCls)
    ensures Pipeline.BaseHooks(r) && Pipeline.KeepsValid(r) && r.enabled == enabled
  {
    var base := Unregistered(name, kind, enabled, repos, ext, epoch, updater);
    var p := Pipeline.RegisterOne(base, CommitCls, 0);
    Pipeline.BaseKeepsValid(p);
    p
  }

  /** The update walks the repositories of the provider's kind, and only those, with the database's Items as they stand. */
  lemma ProviderUpdate(name: string, kind: string, enabled: bool, repos: seq<Repo>, ext: Externals, epoch: int,
                       updater: Updater, db: Db)
    ensures Provider(name, kind, enabled, repos, ext, epoch, updater).update(db, CommitKey) ==
      UpdateCommits(ForType(repos, kind), db.items, epoch, updater)
  {
  }

  /** `SubversionProvider()`: kind "svn", enabled exactly when pysvn imported. */
  function SvnProvider(pysvn: bool, log: (string, int) -> Result<seq<SvnEntry>, Failure>, repos: seq<Repo>,
                       ext: Externals, epoch: int): (r: Pipeline.Provider)
    ensures r.enabled <==> pysvn
    ensures Pipeline.QueuesOne(r, CommitCls) && Pipeline.KeepsValid(r)
  {
    Provider("SubversionProvider", "svn", pysvn, repos, ext, epoch, SvnUpdater(pysvn, log))
  }
}

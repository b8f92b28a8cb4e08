/**
 * The code repository and commit models: the short form of a revision, the
 * public changeset URL and the commit's display string.
 */
module Code {
  import opened Wrappers
  import opened Failures
  import opened Strings
  import opened Externals

  /** The two supported source control systems, by their stored `type` value. */
  const ScmKinds: seq<string> := ["svn", "git"]

  /** A repository; `changesetTemplate` is "" when no public changeset page exists. */
  datatype Repository = Repository(
    kind: string,
    name: string,
    slug: string,
    username: string,
    changesetTemplate: string,
    url: string)

  datatype Commit = Commit(repository: Repository, revision: string, message: string)

  /**
   * `format_revision`: a revision that reads as an integer is shown as that
   * integer's numeral; any other revision (a hash) is cut to its first seven characters.
   */
  function FormatRevision(revision: string): (r: string)
    ensures ParseInt(revision).Some? ==> ParseInt(r) == ParseInt(revision)
    ensures ParseInt(revision).None? ==> r <= revision && |r| == if |revision| < 7 then |revision| else 7
  {
    match ParseInt(revision)
    case Some(n) =>
      IntToStringParses(n);
      IntToString(n)
    case None => SliceTo(revision, 7)
  }

  /** A numeral as written by `str` (a Subversion revision number) is its own short form. */
  lemma NumeralRevisionUnchanged(n: int)
    ensures FormatRevision(IntToString(n)) == IntToString(n)
  {
    IntToStringParses(n);
  }

  /**
   * `url`: the repository's changeset template with the full revision put in
   * its place, or "" when the repository has no template. A template that does
   * not take exactly one `%s` raises from the `%` operator.
   */
  function ChangesetUrl(c: Commit): (r: Result<string, Failure>)
    ensures c.repository.changesetTemplate == "" ==> r == Ok("")
  {
    if c.repository.changesetTemplate != "" then Format(c.repository.changesetTemplate, c.revision) else Ok("")
  }

  /** A template with one `%s` and no other `%` yields the page of exactly this revision. */
  lemma ChangesetUrlOfTemplate(c: Commit, before: string, after: string)
    requires '%' !in before && '%' !in after
    requires c.repository.changesetTemplate == before + "%s" + after
    ensures ChangesetUrl(c) == Ok(before + c.revision + after)
  {
    FormatOne(before, after, c.revision);
  }

  /** `__unicode__`: the short revision in brackets, then the message cut to ten words. */
  function CommitDisplay(c: Commit, ext: Externals): (r: string)
    ensures |r| >= |FormatRevision(c.revision)| + 3
    ensures r[..|FormatRevision(c.revision)| + 3] == "[" + FormatRevision(c.revision) + "] "
  {
    var head := "[" + FormatRevision(c.revision) + "] ";
    assert (head + ext.truncateWords(c.message, 10))[..|head|] == head;
    head + ext.truncateWords(c.message, 10)
  }

  function RepositoryDisplay(r: Repository): string {
    r.name
  }
}

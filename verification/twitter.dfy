/**
 * The Twitter provider: one Message candidate per status of the user's
 * timeline feed. With `TWITTER_TRANSFORM_MSG` set, each status text is parsed:
 * URLs become numbered references, a leading "<user>:" is dropped, "RT @user"
 * is rewritten, @user references become links, and #tags are moved out of the
 * text into the candidate's tags.
 */
module Twitter {
  import opened Wrappers
  import opened Failures
  import opened Values
  import opened Strings
  import opened Records
  import opened Timeline
  import opened Externals
  import opened Patterns
  import Pipeline
  import Scans
  import Orchestrator

  const MessageName: string := "Message"

  /** `Message`: the text is its one concrete field; `links` is a many-to-many relation. */
  const MessageCls: ModelCls := ModelCls(MessageName, "id", ["message"], None, true)

  /** The registry key of the model. */
  const MessageKey := "message"

  /** The Twitter settings the module reads; None where the setting is absent. */
  datatype Settings = Settings(
    username: Option<string>,      // TWITTER_USERNAME
    transform: Option<bool>,       // the truth of TWITTER_TRANSFORM_MSG
    retweetText: Option<string>)   // TWITTER_RETWEET_TXT

  /** Whether the message transforms are on: the setting exists and is true. */
  predicate Transforms(s: Settings) {
    s.transform == Some(true)
  }

  /** `RECENT_STATUSES_URL % TWITTER_USERNAME`. */
  function StatusesUrl(user: string): string {
    "http://twitter.com/statuses/user_timeline/" + user + ".rss"
  }

  // ---------------------------------------------------------------------
  // source_id
  // ---------------------------------------------------------------------

  /** `source_id`: the md5 of the message, the url and the timestamp's text, concatenated. */
  function SourceId(ext: Externals, extra: Data): (r: Result<string, Failure>)
    ensures r.Ok? <==> ShowThree(extra, "message", "url", "timestamp", ext.showTime).Ok?
    ensures r.Err? ==> r.error == ShowThree(extra, "message", "url", "timestamp", ext.showTime).error
  {
    HashThree(ext.md5, extra, "message", "url", "timestamp", ext.showTime)
  }

  /** Records that agree on message, url and timestamp get the same source id: links and tags do not count. */
  lemma SourceIdOfTriple(ext: Externals, x: Data, y: Data)
    requires forall k :: k in ["message", "url", "timestamp"] ==> (k in x <==> k in y)
    requires forall k :: k in ["message", "url", "timestamp"] && k in x ==> x[k] == y[k]
    ensures SourceId(ext, x) == SourceId(ext, y)
  {
    ShowThreeAgree(x, y, "message", "url", "timestamp", ext.showTime);
  }

  // ---------------------------------------------------------------------
  // parse_message
  // ---------------------------------------------------------------------

  /** What `parse_message` returns: the text, the URLs it held, and its tags joined by spaces. */
  datatype Parsed = Parsed(message: string, links: seq<string>, tags: string)

  /**
   * The number `link_dict` gives a URL: one more than the index of its LAST
   * occurrence, since a repeated URL overwrites its earlier entry.
   */
  function LinkNumber(links: seq<string>, u: string): (n: nat)
    requires u in links
    ensures 1 <= n <= |links| && links[n - 1] == u
    ensures forall k :: n <= k < |links| ==> links[k] != u
    decreases |links|
  {
    var last := |links| - 1;
    if links[last] == u then |links|
    else
      assert u in links[..last] by {
        var i :| 0 <= i < |links| && links[i] == u;
        assert links[..last][i] == u;
      }
      LinkNumber(links[..last], u)
  }

  /** `generate_link_num`: a URL's "[n]" reference, or KeyError for a URL `finditer` did not see. */
  function Marker(links: seq<string>): string -> Result<string, Failure> {
    (u: string) => if u in links then Ok("[" + IntToString(LinkNumber(links, u)) + "]") else Err(KeyError(u))
  }

  /** The newline-free text the URLs are searched in. */
  function OneLine(text: string): string {
    RemoveAll(text, "\n")
  }

  /** `URL_RE.findall`: the URLs of the text, in order, repeats included. */
  function Links(ext: Externals, text: string): seq<string> {
    Matches(ext.urlPieces(OneLine(text)))
  }

  /** Every URL is replaced by a reference "[n]" to an entry of the links list that is that URL, so the lookup never fails. */
  lemma MarkersPointBack(ext: Externals, text: string)
    ensures Replace(ext.urlPieces(OneLine(text)), Marker(Links(ext, text))).Ok?
    ensures forall u :: Marker(Links(ext, text))(u).Ok? <==> u in Links(ext, text)
    ensures forall u :: u in Links(ext, text) ==> exists n ::
      1 <= n <= |Links(ext, text)| && Links(ext, text)[n - 1] == u &&
      Marker(Links(ext, text))(u) == Ok("[" + IntToString(n) + "]")
  {
    var ps := ext.urlPieces(OneLine(text));
    var links := Links(ext, text);
    MatchesHas(ps);
    ReplaceOk(ps, Marker(links));
    forall u | u in links
      ensures exists n :: 1 <= n <= |links| && links[n - 1] == u && Marker(links)(u) == Ok("[" + IntToString(n) + "]")
    {
      var n := LinkNumber(links, u);
      assert Marker(links)(u) == Ok("[" + IntToString(n) + "]");
    }
  }

  /** `USERNAME_RE.sub('', text)`: the pattern is anchored at the start, so at most one "<user>:" goes. */
  function DropUser(text: string, user: string): (r: string)
    ensures StartsWith(text, user + ":") ==> text == user + ":" + r
    ensures !StartsWith(text, user + ":") ==> r == text
  {
    if StartsWith(text, user + ":") then
      assert text == text[..|user| + 1] + text[|user| + 1..];
      text[|user| + 1..]
    else text
  }

  /** `TWITTER_RETWEET_TXT` when it is not configured. */
  const RetweetDefault := "Forwarding from %s: "

  /** `transform_retweet`: the configured text, formatted with the user when it holds "%s". */
  function TransformRetweet(setting: Option<string>, user: string): (r: Result<string, Failure>)
    ensures !Contains(setting.GetOr(RetweetDefault), "%s") ==> r == Ok(setting.GetOr(RetweetDefault))
  {
    var text := setting.GetOr(RetweetDefault);
    if Contains(text, "%s") then Format(text, user) else Ok(text)
  }

  /** Without a configured text, a retweet reads "Forwarding from @user: ". */
  lemma DefaultRetweet(user: string)
    ensures TransformRetweet(None, user) == Ok("Forwarding from " + user + ": ")
  {
    assert OccursAt(RetweetDefault, "%s", 16);
    OccursContains(RetweetDefault, "%s", 16);
    assert RetweetDefault == "Forwarding from " + "%s" + ": ";
    FormatOne("Forwarding from ", ": ", user);
  }

  /** The link `transform_user_ref_to_link` puts in place of "@user". */
  function UserLink(user: string): string {
    "<a href='http://twitter.com/" + user + "' title='" + user + "'>@" + user + "</a>"
  }

  /** `transform_user_ref_to_link` of a `USER_RE` match. */
  function UserRefLink(m: string): Result<string, Failure> {
    Ok(UserLink(if |m| == 0 then "" else m[1..]))
  }

  /** A lone "@user" becomes the link to that user's timeline. */
  lemma UserRefLinked(w: string)
    requires |w| > 0 && forall k :: 0 <= k < |w| ==> IsWordChar(w[k])
    ensures Sub("@" + w, UserRef, UserRefLink) == Ok(UserLink(w))
  {
    var s := "@" + w;
    assert s[1..] == w;
    assert Run(w, IsWordChar) == |w|;
    assert UserRef(s) == |s|;
    SubWhole(s, UserRef, UserRefLink);
  }

  /** The text before tags are taken out: URLs numbered, leading user dropped, retweets and user references rewritten. */
  function Tidy(s: Settings, ext: Externals, text: string): Result<string, Failure> {
    var pieces := ext.urlPieces(OneLine(text));
    var t2 :- Replace(pieces, Marker(Matches(pieces)));
    var t3 := DropUser(t2, s.username.GetOr(""));
    var t4 :- Sub(t3, Retweet, (m: string) => TransformRetweet(s.retweetText, RetweetUser(m)));
    Sub(t4, UserRef, UserRefLink)
  }

  /** `tag[1:]` of each `TAG_RE` match. */
  function TagWords(ms: seq<string>): (r: seq<string>)
    ensures |r| == |ms|
    ensures forall k :: 0 <= k < |ms| ==> r[k] == if |ms[k]| == 0 then "" else ms[k][1..]
  {
    seq(|ms|, (k: int) requires 0 <= k < |ms| => if |ms[k]| == 0 then "" else ms[k][1..])
  }

  /** `' '.join([tag[1:] for tag in TAG_RE.findall(text)])`. */
  function TagsOf(text: string): string {
    Join(TagWords(FindAll(text, HashTag)), " ")
  }

  /** `parse_message` with the transforms on. */
  function ParseMessage(s: Settings, ext: Externals, text: string): (r: Result<Parsed, Failure>)
    ensures r.Ok? ==> r.value.links == Links(ext, text)
    ensures r.Ok? ==> Tidy(s, ext, text).Ok? && r.value.tags == TagsOf(Tidy(s, ext, text).value)
    ensures r.Ok? && |r.value.message| > 0 ==>
      r.value.message[0] !in Whitespace && r.value.message[|r.value.message| - 1] !in Whitespace
  {
    var t5 :- Tidy(s, ext, text);
    var t6 :- Sub(t5, HashTag, (m: string) => Ok(""));
    Ok(Parsed(Strip(t6, Whitespace), Links(ext, text), TagsOf(t5)))
  }

  /** Joining the words of `#word` matches: "" for none, and otherwise text that splits on ' ' back into the words. */
  lemma TagWordsJoin(ms: seq<string>)
    requires forall m :: m in ms ==> Tagged('#', m)
    ensures var words := TagWords(ms);
      (Join(words, " ") == "" <==> words == []) &&
      (words != [] ==> Split(Join(words, " "), ' ') == words) &&
      forall k :: 0 <= k < |words| ==> (|words[k]| > 0 && forall j :: 0 <= j < |words[k]| ==> IsWordChar(words[k][j]))
  {
    var words := TagWords(ms);
    forall k | 0 <= k < |words|
      ensures |words[k]| > 0 && forall j :: 0 <= j < |words[k]| ==> IsWordChar(words[k][j])
    {
      assert ms[k] in ms;
      assert Tagged('#', ms[k]);
      assert forall j :: 0 <= j < |words[k]| ==> words[k][j] == ms[k][j + 1];
    }
    if words != [] {
      forall k | 0 <= k < |words| ensures ' ' !in words[k] {
        assert forall j :: 0 <= j < |words[k]| ==> IsWordChar(words[k][j]);
      }
      SplitOfJoin(words, ' ');
    }
  }

  /**
   * The tags are the words of the text's #tags, in order: none gives "", and
   * otherwise splitting on ' ' gives back the words, each a non-empty run of
   * word characters.
   */
  lemma TagsAreWords(text: string)
    ensures var words := TagWords(FindAll(text, HashTag));
      (TagsOf(text) == "" <==> words == []) &&
      (words != [] ==> Split(TagsOf(text), ' ') == words) &&
      forall k :: 0 <= k < |words| ==> (|words[k]| > 0 && forall j :: 0 <= j < |words[k]| ==> IsWordChar(words[k][j]))
  {
    HashTagsTagged(text);
    TagWordsJoin(FindAll(text, HashTag));
  }

  /** A retweet text that formats for every user makes parsing succeed; the default one does. */
  lemma ParseSucceeds(s: Settings, ext: Externals, text: string)
    requires forall u :: TransformRetweet(s.retweetText, u).Ok?
    ensures ParseMessage(s, ext, text).Ok?
  {
    MarkersPointBack(ext, text);
    var pieces := ext.urlPieces(OneLine(text));
    var t2 := Replace(pieces, Marker(Matches(pieces))).value;
    var t3 := DropUser(t2, s.username.GetOr(""));
    var rt := (m: string) => TransformRetweet(s.retweetText, RetweetUser(m));
    SubOk(t3, Retweet, rt);
    var t4 := Sub(t3, Retweet, rt).value;
    SubOk(t4, UserRef, UserRefLink);
    var t5 := Tidy(s, ext, text).value;
    SubOk(t5, HashTag, (m: string) => Ok(""));
  }

  /** The default retweet text formats for every user. */
  lemma DefaultRetweetFormats()
    ensures forall u :: TransformRetweet(None, u).Ok?
  {
    forall u ensures TransformRetweet(None, u).Ok? {
      DefaultRetweet(u);
    }
  }

  /** The parse the class-body fallback means to install: the text as it is, no links, no tags. */
  function Verbatim(text: string): Result<Parsed, Failure> {
    Ok(Parsed(text, [], ""))
  }

  /** The `parse_message` in effect: the transforms, or the verbatim fallback. */
  function Parser(s: Settings, ext: Externals): string -> Result<Parsed, Failure> {
    if Transforms(s) then (text: string) => ParseMessage(s, ext, text) else Verbatim
  }

  // ---------------------------------------------------------------------
  // update_message
  // ---------------------------------------------------------------------

  /** One `<item>` of the timeline feed: its title, pubDate and link texts. */
  datatype Status = Status(title: string, pubDate: string, link: string)

  /**
   * One status's candidate. `stamp` is `dateutil.parser.parse` of the
   * pubDate, shifted to local time when `JELLYROLL_ADJUST_DATETIME` is set;
   * it may fail. The text is parsed after the date.
   */
  function StatusRecord(parse: string -> Result<Parsed, Failure>, stamp: string -> Result<int, Failure>, st: Status)
    : Result<Data, Failure>
  {
    var t :- stamp(st.pubDate);
    var p :- parse(st.title);
    Ok(map["message" := Str(p.message), "links" := Strs(p.links), "tags" := Str(p.tags),
           "timestamp" := Time(t), "url" := Str(st.link)])
  }

  function Candidate(parse: string -> Result<Parsed, Failure>, stamp: string -> Result<int, Failure>)
    : Status -> Result<Data, Failure>
  {
    (st: Status) => StatusRecord(parse, stamp, st)
  }

  /** `update_message`: one candidate per status, in feed order. The checkpoint it reads is never used. */
  function UpdateMessage(statuses: seq<Status>, parse: string -> Result<Parsed, Failure>,
                         stamp: string -> Result<int, Failure>): Result<seq<Data>, Failure>
  {
    Scans.TakeMap(statuses, Scans.Never(), Candidate(parse, stamp))
  }

  /** One status's candidate: it fails exactly when its date or its text does not parse, and holds the parse otherwise. */
  lemma StatusFields(parse: string -> Result<Parsed, Failure>, stamp: string -> Result<int, Failure>, st: Status)
    ensures StatusRecord(parse, stamp, st).Ok? <==> stamp(st.pubDate).Ok? && parse(st.title).Ok?
    ensures var c := StatusRecord(parse, stamp, st);
      c.Ok? ==> (stamp(st.pubDate).Ok? && parse(st.title).Ok? &&
        Has(c.value, "message", Str(parse(st.title).value.message)) &&
        Has(c.value, "links", Strs(parse(st.title).value.links)) &&
        Has(c.value, "tags", Str(parse(st.title).value.tags)) &&
        Has(c.value, "timestamp", Time(stamp(st.pubDate).value)) && Has(c.value, "url", Str(st.link)))
  {
  }

  /** The update fails exactly when some status's date or text does not parse. */
  lemma UpdateMessageFails(statuses: seq<Status>, parse: string -> Result<Parsed, Failure>,
                           stamp: string -> Result<int, Failure>)
    ensures UpdateMessage(statuses, parse, stamp).Ok? <==>
      forall i :: 0 <= i < |statuses| ==> stamp(statuses[i].pubDate).Ok? && parse(statuses[i].title).Ok?
  {
    var f := Candidate(parse, stamp);
    Scans.TakeMapAllOk(statuses, f);
    forall i | 0 <= i < |statuses|
      ensures f(statuses[i]).Ok? <==> stamp(statuses[i].pubDate).Ok? && parse(statuses[i].title).Ok?
    {
      StatusFields(parse, stamp, statuses[i]);
    }
  }

  /**
   * With the transforms off, every status is kept with its text verbatim, no
   * links and no tags, in feed order.
   */
  lemma VerbatimMessages(statuses: seq<Status>, stamp: string -> Result<int, Failure>)
    requires UpdateMessage(statuses, Verbatim, stamp).Ok?
    ensures var r := UpdateMessage(statuses, Verbatim, stamp).value;
      |r| == |statuses| && forall i :: 0 <= i < |statuses| ==> (
        Has(r[i], "message", Str(statuses[i].title)) && Has(r[i], "links", Strs([])) &&
        Has(r[i], "tags", Str("")) && Has(r[i], "url", Str(statuses[i].link)))
  {
    var f := Candidate(Verbatim, stamp);
    var r := UpdateMessage(statuses, Verbatim, stamp).value;
    Scans.TakeMapAll(statuses, f);
    forall i | 0 <= i < |statuses|
      ensures Has(r[i], "message", Str(statuses[i].title)) && Has(r[i], "links", Strs([])) &&
        Has(r[i], "tags", Str("")) && Has(r[i], "url", Str(statuses[i].link))
    {
      StatusFields(Verbatim, stamp, statuses[i]);
    }
  }

  /** Each candidate's source id is the md5 of its parsed text, its link and its time. */
  lemma CandidateSourceId(parse: string -> Result<Parsed, Failure>, stamp: string -> Result<int, Failure>,
                          ext: Externals, st: Status)
    requires StatusRecord(parse, stamp, st).Ok?
    ensures SourceId(ext, StatusRecord(parse, stamp, st).value) ==
            Ok(ext.md5(parse(st.title).value.message + st.link + ext.showTime(stamp(st.pubDate).value)))
  {
    var c := StatusRecord(parse, stamp, st).value;
    ShowThreeOf(c, "message", "url", "timestamp", ext.showTime,
                parse(st.title).value.message, st.link, stamp(st.pubDate).value);
  }

  // ---------------------------------------------------------------------
  // post_handle_default
  // ---------------------------------------------------------------------

  /**
   * `post_handle_default` as it is called: its third parameter, which it uses
   * as the new instance, receives the model class. For a new record with
   * links, the first ContentLink is saved and `links.add` is then looked up on
   * the class's relation descriptor, which has no such method; the exception
   * rolls the transaction back, the ContentLink with it.
   */
  function PostHandleDefault(db: Db, data: Data, created: bool): (r: Result<Db, Failure>)
    ensures r.Ok? ==> r.value == db
    ensures r.Ok? <==> !created || "links" !in data || data["links"] == Strs([]) || data["links"] == Str("")
    ensures created && "links" in data && data["links"].Strs? && data["links"].items != [] ==>
      r == Err(AttributeError("add"))
  {
    if !created || "links" !in data then Ok(db)
    else
      match data["links"]
      case Strs(ls) => if ls == [] then Ok(db) else Err(AttributeError("add"))
      case Str(t) => if t == "" then Ok(db) else Err(AttributeError("add"))
      case _ => Err(TypeError("object is not iterable"))
  }

  // ---------------------------------------------------------------------
  // The provider
  // ---------------------------------------------------------------------

  /** `Lower("Message")` is the registry key the update dispatches on. */
  lemma ModelNames()
    ensures Lower(MessageName) == MessageKey
  {
  }

  /** The provider before `__init__` registers Message. */
  function Unregistered(user: string, parse: string -> Result<Parsed, Failure>,
                        fetch: string -> Result<seq<Status>, Failure>, stamp: string -> Result<int, Failure>,
                        ext: Externals): Pipeline.Provider
  {
    Pipeline.Provider(
      "TwitterProvider", true, {"update_" + Lower(MessageName)}, [],
      (cls: ModelCls, d: Data) => SourceId(ext, d),
      Pipeline.BaseDefaultFields,
      (db: Db, m: string) =>
        if m == MessageKey then
          var statuses :- fetch(StatusesUrl(user));
          UpdateMessage(statuses, parse, stamp)
        else Err(AttributeError("update_" + m)),
      (db: Db, m: string, cls: ModelCls, d: Data) => Err(NotImplemented),
      (db: Db, o: Obj, m: string, cls: ModelCls, d: Data, created: bool) => PostHandleDefault(db, d, created),
      (db: Db, o: Obj, d: Data) => Ok((db, o)))
  }

  /** A hook that either fails or leaves the database as it was keeps it valid. */
  lemma HooksKeepValid(p: Pipeline.Provider)
    requires forall db, o, m, c, d, b :: p.postHandleDefault(db, o, m, c, d, b) == PostHandleDefault(db, d, b)
    requires forall db, o, d :: p.preHandleItemCreated(db, o, d) == Ok((db, o))
    requires forall db, m, c, d :: p.handler(db, m, c, d).Err?
    ensures Pipeline.KeepsValid(p)
  {
  }

  /** `TwitterProvider()` for a configured user, with the given `parse_message`: Message alone is registered, without a handler of its own. */
  function Provider(user: string, parse: string -> Result<Parsed, Failure>,
                    fetch: string -> Result<seq<Status>, Failure>, stamp: string -> Result<int, Failure>,
                    ext: Externals): (r: Pipeline.Provider)
    ensures Pipeline.QueuesOne(r, MessageCls) && !Pipeline.Queue(r)[0].hasHandler
    ensures r.enabled && Pipeline.KeepsValid(r)
  {
    var base := Unregistered(user, parse, fetch, stamp, ext);
    assert ("handle_" + Lower(MessageName))[0] == 'h';
    var p := Pipeline.RegisterOne(base, MessageCls, 0);
    HooksKeepValid(p);
    p
  }

  /** The provider's Message update fetches the user's timeline and emits its candidates. */
  lemma ProviderUpdate(user: string, parse: string -> Result<Parsed, Failure>,
                       fetch: string -> Result<seq<Status>, Failure>, stamp: string -> Result<int, Failure>,
                       ext: Externals, db: Db, statuses: seq<Status>)
    requires fetch(StatusesUrl(user)) == Ok(statuses)
    ensures Provider(user, parse, fetch, stamp, ext).update(db, MessageKey) == UpdateMessage(statuses, parse, stamp)
  {
    ModelNames();
  }

  /**
   * Importing the module and instantiating `TwitterProvider`, as written.
   * `USERNAME_RE` reads `TWITTER_USERNAME` at import; with the transforms off,
   * the class body assigns to `TwitterProvider.parse_message` before the name
   * `TwitterProvider` exists.
   */
  function LoadAsWritten(s: Settings, ext: Externals, fetch: string -> Result<seq<Status>, Failure>,
                         stamp: string -> Result<int, Failure>): (r: Result<Pipeline.Provider, Failure>)
    ensures s.username.None? ==> r == Err(AttributeError("TWITTER_USERNAME"))
    ensures s.username.Some? && !Transforms(s) ==> r == Err(NameError("TwitterProvider"))
    ensures s.username.Some? && Transforms(s) ==> r.Ok? && Pipeline.QueuesOne(r.value, MessageCls)
  {
    if s.username.None? then Err(AttributeError("TWITTER_USERNAME"))
    else if !Transforms(s) then Err(NameError("TwitterProvider"))
    else Ok(Provider(s.username.value, Parser(s, ext), fetch, stamp, ext))
  }

  /**
   * As written, a configuration that lists the Twitter provider without
   * turning the transforms on aborts every `update`: listing it means
   * importing it, and the import raises before any provider runs.
   */
  lemma UntransformedAbortsUpdate(schema: Schema, config: seq<Orchestrator.Configured>, requested: Option<seq<string>>,
                                  db: Db, now: int, i: nat, s: Settings, ext: Externals,
                                  fetch: string -> Result<seq<Status>, Failure>, stamp: string -> Result<int, Failure>)
    requires i < |config| && config[i].load == LoadAsWritten(s, ext, fetch, stamp)
    requires s.username.Some? && !Transforms(s)
    requires forall j :: 0 <= j < i ==> config[j].load.Ok?
    ensures Orchestrator.Update(schema, config, requested, db, now) ==
      Orchestrator.Run(db, [], Some(NameError("TwitterProvider")))
  {
    var a := Orchestrator.ActiveProviders(config);
    Orchestrator.ActiveProvidersFails(config);
    assert a.Err?;
    var j :| 0 <= j < |config| && config[j].load == Err(a.error) && forall k :: 0 <= k < j ==> config[k].load.Ok?;
    assert j == i;
  }

  /**
   * The loading the fallback evidently intends: with the transforms off,
   * `parse_message` keeps the text verbatim. Only a missing username fails.
   */
  function Load(s: Settings, ext: Externals, fetch: string -> Result<seq<Status>, Failure>,
                stamp: string -> Result<int, Failure>): (r: Result<Pipeline.Provider, Failure>)
    ensures r.Ok? <==> s.username.Some?
    ensures r.Err? ==> r.error == AttributeError("TWITTER_USERNAME")
    ensures r.Ok? ==> Pipeline.QueuesOne(r.value, MessageCls) && r.value.enabled && Pipeline.KeepsValid(r.value)
  {
    if s.username.None? then Err(AttributeError("TWITTER_USERNAME"))
    else Ok(Provider(s.username.value, Parser(s, ext), fetch, stamp, ext))
  }

  /**
   * Loaded as intended, the provider with the transforms off stores every
   * status of the feed verbatim, and a configuration listing it no longer
   * fails on its account.
   */
  lemma UntransformedStoresVerbatim(s: Settings, ext: Externals, fetch: string -> Result<seq<Status>, Failure>,
                                    stamp: string -> Result<int, Failure>, db: Db, statuses: seq<Status>)
    requires s.username.Some? && !Transforms(s)
    requires fetch(StatusesUrl(s.username.value)) == Ok(statuses)
    requires UpdateMessage(statuses, Verbatim, stamp).Ok?
    ensures Load(s, ext, fetch, stamp).Ok?
    ensures var r := Load(s, ext, fetch, stamp).value.update(db, MessageKey);
      r.Ok? && |r.value| == |statuses| && forall i :: 0 <= i < |statuses| ==>
        Has(r.value[i], "message", Str(statuses[i].title)) && Has(r.value[i], "links", Strs([]))
  {
    ProviderUpdate(s.username.value, Verbatim, fetch, stamp, ext, db, statuses);
    VerbatimMessages(statuses, stamp);
  }

  /**
   * With this hook, a record with links whose object is new fails in its
   * transaction, so the database is left as it was.
   */
  lemma LinkedRecordRolledBack(schema: Schema, p: Pipeline.Provider, reg: Pipeline.Registration, db: Db, data: Data, now: int)
    requires !reg.hasHandler && reg.cls == MessageCls
    requires forall db, o, m, c, d, b :: p.postHandleDefault(db, o, m, c, d, b) == PostHandleDefault(db, d, b)
    requires p.defaultFields(MessageCls) == ["message"] && "message" in data && "id" !in data
    requires "links" in data && data["links"].Strs? && data["links"].items != []
    requires p.sourceId(MessageCls, data).Ok?
    requires var f := Find(db.items, p.name, p.sourceId(MessageCls, data).value); f.Err? && f.error.DoesNotExist?
    ensures Pipeline.HandleRecord(schema, p, db, reg, data, now) == (db, Some(AttributeError("add")))
  {
    var o := Obj(MessageCls, None, Pick(data, ["message"]).value);
    assert Pipeline.HandleDefault(schema, p, db, MessageCls, data, now) == Ok((db, Some((o, true))));
  }

  /**
   * A new status that carried a URL is never stored when the transforms are
   * on: the record's object is new, so the hook runs, fails on its links, and
   * the record's transaction is rolled back.
   */
  lemma NewLinkedMessageDropped(schema: Schema, user: string, parse: string -> Result<Parsed, Failure>,
                                fetch: string -> Result<seq<Status>, Failure>, stamp: string -> Result<int, Failure>,
                                ext: Externals, db: Db, data: Data, now: int, sid: string)
    requires "message" in data && "id" !in data
    requires "links" in data && data["links"].Strs? && data["links"].items != []
    requires SourceId(ext, data) == Ok(sid)
    requires Find(db.items, "TwitterProvider", sid).Err? && Find(db.items, "TwitterProvider", sid).error.DoesNotExist?
    ensures var p := Provider(user, parse, fetch, stamp, ext);
      Pipeline.HandleRecord(schema, p, db, Pipeline.Queue(p)[0], data, now) == (db, Some(AttributeError("add")))
  {
    var p := Provider(user, parse, fetch, stamp, ext);
    assert p.sourceId(MessageCls, data) == Ok(sid) && p.name == "TwitterProvider";
    LinkedRecordRolledBack(schema, p, Pipeline.Queue(p)[0], db, data, now);
  }
}

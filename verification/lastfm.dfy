/**
 * The Last.fm provider: one Track candidate per recently played track, with
 * the track's and the artist's most used tags.
 */
module Lastfm {
  import opened Wrappers
  import opened Failures
  import opened Values
  import opened Strings
  import opened Records
  import opened Externals
  import Pipeline
  import Scans

  const TrackName: string := "Track"

  /** `Track`: no tag field of its own; its Items take the candidate's tags. */
  const TrackCls: ModelCls := ModelCls(TrackName, "id",
    ["artist_name", "track_name", "url", "track_mbid", "artist_mbid"], None, true)

  /** The registry key of the model. */
  const TrackKey := "track"

  /** `LASTFM_TAG_USAGE_THRESHOLD` when it is not configured. */
  const DefaultThreshold := 15

  /** The longest tag kept. */
  const MaxTagLength := 50

  // ---------------------------------------------------------------------
  // source_id
  // ---------------------------------------------------------------------

  /**
   * `source_id`: the md5 of the artist, the track and the timestamp's text,
   * concatenated.
   */
  function SourceId(ext: Externals, extra: Data): (r: Result<string, Failure>)
    ensures r.Ok? <==> ShowThree(extra, "artist_name", "track_name", "timestamp", ext.showTime).Ok?
    ensures r.Err? ==> r.error == ShowThree(extra, "artist_name", "track_name", "timestamp", ext.showTime).error
  {
    HashThree(ext.md5, extra, "artist_name", "track_name", "timestamp", ext.showTime)
  }

  /** Records that agree on artist, track and timestamp get the same source id, whatever else they hold. */
  lemma SourceIdOfTriple(ext: Externals, x: Data, y: Data)
    requires forall k :: k in ["artist_name", "track_name", "timestamp"] ==> (k in x <==> k in y)
    requires forall k :: k in ["artist_name", "track_name", "timestamp"] && k in x ==> x[k] == y[k]
    ensures SourceId(ext, x) == SourceId(ext, y)
  {
    ShowThreeAgree(x, y, "artist_name", "track_name", "timestamp", ext.showTime);
  }

  // ---------------------------------------------------------------------
  // tags_for_url
  // ---------------------------------------------------------------------

  /** A `tag` element of a top-tags document: its usage count, already read by `safeint`, and its name. */
  datatype TagEntry = TagEntry(count: int, name: string)

  /** `getattr(settings, 'LASTFM_TAG_USAGE_THRESHOLD', 15)`. */
  function Threshold(setting: Option<int>): int {
    setting.GetOr(DefaultThreshold)
  }

  /** The tag a `tag` element contributes: its name slugified and cut to 50 characters. */
  function TagOf(ext: Externals, e: TagEntry): (t: string)
    ensures |t| <= MaxTagLength
    ensures t <= ext.slugify(e.name)
    ensures |ext.slugify(e.name)| <= MaxTagLength ==> t == ext.slugify(e.name)
  {
    SliceTo(ext.slugify(e.name), MaxTagLength)
  }

  /** No tag twice: a Python set, kept in the order its members were first added. */
  predicate Unique(s: seq<string>) {
    forall i, j :: 0 <= i < j < |s| ==> s[i] != s[j]
  }

  /** `tags.add(t)`. */
  function AddTag(tags: seq<string>, t: string): (r: seq<string>)
    ensures forall x :: x in r <==> x in tags || x == t
    ensures Unique(tags) ==> Unique(r)
    ensures tags <= r
  {
    if t in tags then tags else tags + [t]
  }

  /** An element of the document used at least `threshold` times contributes `t`. */
  predicate Kept(entries: seq<TagEntry>, threshold: int, ext: Externals, t: string) {
    exists i :: 0 <= i < |entries| && entries[i].count >= threshold && TagOf(ext, entries[i]) == t
  }

  /** The loop of `tags_for_url` over the document's `tag` elements. */
  function Tags(entries: seq<TagEntry>, threshold: int, ext: Externals): (r: seq<string>)
    ensures Unique(r)
    decreases |entries|
  {
    if |entries| == 0 then []
    else
      var n := |entries| - 1;
      var before := Tags(entries[..n], threshold, ext);
      if entries[n].count >= threshold then AddTag(before, TagOf(ext, entries[n])) else before
  }

  /** The tags are exactly those of the elements that reach the threshold, each at most 50 characters long. */
  lemma {:induction false} TagsMembers(entries: seq<TagEntry>, threshold: int, ext: Externals)
    ensures forall t :: t in Tags(entries, threshold, ext) <==> Kept(entries, threshold, ext, t)
    ensures forall t :: t in Tags(entries, threshold, ext) ==> |t| <= MaxTagLength
    decreases |entries|
  {
    if |entries| > 0 {
      var n := |entries| - 1;
      TagsMembers(entries[..n], threshold, ext);
      forall t ensures Kept(entries, threshold, ext, t) <==>
        (Kept(entries[..n], threshold, ext, t) || (entries[n].count >= threshold && TagOf(ext, entries[n]) == t)) {
        if Kept(entries, threshold, ext, t) {
          var i :| 0 <= i < |entries| && entries[i].count >= threshold && TagOf(ext, entries[i]) == t;
          if i < n { assert entries[..n][i] == entries[i]; }
        }
        if Kept(entries[..n], threshold, ext, t) {
          var i :| 0 <= i < n && entries[..n][i].count >= threshold && TagOf(ext, entries[..n][i]) == t;
          assert entries[i] == entries[..n][i];
        }
      }
    }
  }

  /** The fetch failures `tags_for_url` answers with "": a timeout (HTTP 408) and a document that does not parse. */
  predicate Swallowed(e: Failure) {
    e == HttpError(408) || e.SyntaxError?
  }

  /**
   * `tags_for_url` on the outcome of fetching the url. A swallowed failure
   * gives "", which adds no tag; any other failure propagates.
   */
  function TagsForUrl(fetched: Result<seq<TagEntry>, Failure>, threshold: int, ext: Externals): (r: Result<seq<string>, Failure>)
    ensures r.Err? <==> fetched.Err? && !Swallowed(fetched.error)
    ensures r.Err? ==> r.error == fetched.error
    ensures fetched.Err? && r.Ok? ==> r.value == []
    ensures r.Ok? ==> Unique(r.value)
  {
    match fetched
    case Err(e) => if Swallowed(e) then Ok([]) else Err(e)
    case Ok(entries) => Ok(Tags(entries, threshold, ext))
  }

  /** What `tags_for_url` answers for a document it reads: the tags of the elements at or above the threshold. */
  lemma TagsForUrlKept(entries: seq<TagEntry>, threshold: int, ext: Externals)
    ensures TagsForUrl(Ok(entries), threshold, ext).Ok?
    ensures forall t :: t in TagsForUrl(Ok(entries), threshold, ext).value <==>
      |t| <= MaxTagLength && Kept(entries, threshold, ext, t)
  {
    TagsMembers(entries, threshold, ext);
  }

  // ---------------------------------------------------------------------
  // The memo around tags_for_url
  // ---------------------------------------------------------------------

  /** The documents, by url, that the tag urls return when fetched. */
  type Fetcher = string -> Result<seq<TagEntry>, Failure>

  /**
   * The memo as written: Django's `memoize(f, cache, 1)` keys on the first
   * positional argument, which for the method is the provider itself, so the
   * first successful answer is served for every later url.
   */
  function MemoAsWritten(cache: Option<seq<string>>, fetch: Fetcher, threshold: int, ext: Externals, url: string)
    : (r: Result<(seq<string>, Option<seq<string>>), Failure>)
    ensures cache.Some? ==> r == Ok((cache.value, cache))
    ensures cache.None? ==> (r.Ok? <==> TagsForUrl(fetch(url), threshold, ext).Ok?)
    ensures cache.None? && r.Ok? ==> r.value.0 == TagsForUrl(fetch(url), threshold, ext).value && r.value.1 == Some(r.value.0)
  {
    match cache
    case Some(tags) => Ok((tags, cache))
    case None =>
      var tags :- TagsForUrl(fetch(url), threshold, ext);
      Ok((tags, Some(tags)))
  }

  /** Once one url's tags are cached, a url whose tags differ is answered with the first url's. */
  lemma MemoServesFirstUrl(fetch: Fetcher, threshold: int, ext: Externals, u1: string, u2: string)
    requires TagsForUrl(fetch(u1), threshold, ext).Ok? && TagsForUrl(fetch(u2), threshold, ext).Ok?
    requires TagsForUrl(fetch(u1), threshold, ext) != TagsForUrl(fetch(u2), threshold, ext)
    ensures var first := MemoAsWritten(None, fetch, threshold, ext, u1);
      first.Ok? && MemoAsWritten(first.value.1, fetch, threshold, ext, u2).Ok? &&
      MemoAsWritten(first.value.1, fetch, threshold, ext, u2).value.0 != TagsForUrl(fetch(u2), threshold, ext).value
  {
  }

  /** Two urls whose documents differ: the artist's has one popular tag, the track's none. */
  lemma MemoStaleExample(ext: Externals, u1: string, u2: string)
    requires u1 != u2
    ensures var fetch: Fetcher := (u: string) => if u == u1 then Ok([TagEntry(DefaultThreshold, "rock")]) else Ok([]);
      TagsForUrl(fetch(u1), DefaultThreshold, ext) == Ok([TagOf(ext, TagEntry(DefaultThreshold, "rock"))]) &&
      TagsForUrl(fetch(u2), DefaultThreshold, ext) == Ok([])
  {
    var e := TagEntry(DefaultThreshold, "rock");
    assert [e][..0] == [];
    assert Tags([e], DefaultThreshold, ext) == [TagOf(ext, e)];
  }

  /** A memo keyed by url holds, for each url, what fetching it would answer. */
  predicate CacheSound(cache: map<string, seq<string>>, fetch: Fetcher, threshold: int, ext: Externals) {
    forall u :: u in cache ==> TagsForUrl(fetch(u), threshold, ext) == Ok(cache[u])
  }

  /** The memo keyed by the url, as evidently intended: a fetched answer is kept for that url alone. */
  function Memo(cache: map<string, seq<string>>, fetch: Fetcher, threshold: int, ext: Externals, url: string)
    : (r: Result<(seq<string>, map<string, seq<string>>), Failure>)
    ensures url in cache ==> r == Ok((cache[url], cache))
    ensures r.Ok? ==> url in r.value.1 && r.value.1[url] == r.value.0
    ensures r.Ok? ==> forall u :: u in cache ==> u in r.value.1 && r.value.1[u] == cache[u]
  {
    if url in cache then Ok((cache[url], cache))
    else
      var tags :- TagsForUrl(fetch(url), threshold, ext);
      Ok((tags, cache[url := tags]))
  }

  /**
   * A sound memo answers as fetching would and stays sound, so a run that
   * reads tags through it emits what it would emit without one.
   */
  lemma MemoSound(cache: map<string, seq<string>>, fetch: Fetcher, threshold: int, ext: Externals, url: string)
    requires CacheSound(cache, fetch, threshold, ext)
    ensures var r := Memo(cache, fetch, threshold, ext, url);
      (r.Ok? <==> TagsForUrl(fetch(url), threshold, ext).Ok?) &&
      (r.Ok? ==> Ok(r.value.0) == TagsForUrl(fetch(url), threshold, ext) && CacheSound(r.value.1, fetch, threshold, ext))
  {
    var r := Memo(cache, fetch, threshold, ext, url);
    if url !in cache && r.Ok? {
      forall u | u in r.value.1 ensures TagsForUrl(fetch(u), threshold, ext) == Ok(r.value.1[u]) {
        if u != url { assert u in cache; }
      }
    }
  }

  // ---------------------------------------------------------------------
  // tags_for_track
  // ---------------------------------------------------------------------

  /** `ARTIST_TAGS_URL % urlquote(artist)`. */
  function ArtistTagsUrl(ext: Externals, artist: string): string {
    "http://ws.audioscrobbler.com/1.0/artist/" + ext.urlquote(artist) + "/toptags.xml"
  }

  /** `TRACK_TAGS_URL % (urlquote(artist), urlquote(track))`. */
  function TrackTagsUrl(ext: Externals, artist: string, track: string): string {
    "http://ws.audioscrobbler.com/1.0/track/" + ext.urlquote(artist) + "/" + ext.urlquote(track) + "/toptags.xml"
  }

  /** `tags.update(more)`: the members of `more` added one by one. */
  function Update(tags: seq<string>, more: seq<string>): (r: seq<string>)
    ensures Unique(tags) ==> Unique(r)
    ensures tags <= r
    decreases |more|
  {
    if |more| == 0 then tags
    else
      var n := |more| - 1;
      AddTag(Update(tags, more[..n]), more[n])
  }

  /** Updating a set adds exactly the new members. */
  lemma {:induction false} UpdateMembers(tags: seq<string>, more: seq<string>)
    ensures forall x :: x in Update(tags, more) <==> x in tags || x in more
    decreases |more|
  {
    if |more| > 0 {
      var n := |more| - 1;
      UpdateMembers(tags, more[..n]);
      assert more == more[..n] + [more[n]];
      forall x ensures x in more <==> x in more[..n] || x == more[n] {
      }
    }
  }

  /**
   * The loop of `tags_for_track`: the artist's tags, then the track's; a
   * failure of either fetch propagates.
   */
  function TrackTags(fetch: Fetcher, threshold: int, ext: Externals, artist: string, track: string)
    : (r: Result<seq<string>, Failure>)
  {
    var a :- TagsForUrl(fetch(ArtistTagsUrl(ext, artist)), threshold, ext);
    var t :- TagsForUrl(fetch(TrackTagsUrl(ext, artist, track)), threshold, ext);
    Ok(Update(a, t))
  }

  /** A track's tags are those of its artist's document and of its own, each once. */
  lemma TrackTagsMembers(fetch: Fetcher, threshold: int, ext: Externals, artist: string, track: string)
    requires TrackTags(fetch, threshold, ext, artist, track).Ok?
    ensures var a := TagsForUrl(fetch(ArtistTagsUrl(ext, artist)), threshold, ext);
      var t := TagsForUrl(fetch(TrackTagsUrl(ext, artist, track)), threshold, ext);
      a.Ok? && t.Ok? && Unique(TrackTags(fetch, threshold, ext, artist, track).value) &&
      forall x :: x in TrackTags(fetch, threshold, ext, artist, track).value <==> x in a.value || x in t.value
  {
    var a := TagsForUrl(fetch(ArtistTagsUrl(ext, artist)), threshold, ext);
    var t := TagsForUrl(fetch(TrackTagsUrl(ext, artist, track)), threshold, ext);
    UpdateMembers(a.value, t.value);
  }

  /**
   * `tags_for_track` as written, through the memo as written: both urls are
   * fetched, then the function falls off its end and returns None.
   */
  function TagsForTrackAsWritten(cache: Option<seq<string>>, fetch: Fetcher, threshold: int, ext: Externals,
                                 artist: string, track: string): (r: Result<(Value, Option<seq<string>>), Failure>)
    ensures r.Ok? ==> r.value.0 == Null && r.value.1.Some?
    ensures cache.Some? ==> r == Ok((Null, cache))
    ensures cache.None? ==> (r.Ok? <==> TagsForUrl(fetch(ArtistTagsUrl(ext, artist)), threshold, ext).Ok?)
  {
    var first :- MemoAsWritten(cache, fetch, threshold, ext, ArtistTagsUrl(ext, artist));
    // the memo now holds an answer, which it serves for the track url
    var second := MemoAsWritten(first.1, fetch, threshold, ext, TrackTagsUrl(ext, artist, track)).value;
    Ok((Null, second.1))
  }

  /** `tags_for_track` as evidently intended: the collected tags, space-joined as the other providers store them. */
  function TagsForTrack(fetch: Fetcher, threshold: int, ext: Externals, artist: string, track: string)
    : (r: Result<Value, Failure>)
    ensures r.Ok? <==> TrackTags(fetch, threshold, ext, artist, track).Ok?
    ensures r.Ok? ==> r.value == Str(Join(TrackTags(fetch, threshold, ext, artist, track).value, " "))
  {
    var tags :- TrackTags(fetch, threshold, ext, artist, track);
    Ok(Str(Join(tags, " ")))
  }

  /** A track whose artist has a popular tag loses it as written, and keeps it as intended. */
  lemma TagsDropped(fetch: Fetcher, threshold: int, ext: Externals, artist: string, track: string)
    requires TrackTags(fetch, threshold, ext, artist, track).Ok?
    requires TrackTags(fetch, threshold, ext, artist, track).value != []
    ensures TagsForTrackAsWritten(None, fetch, threshold, ext, artist, track).Ok?
    ensures TagsForTrackAsWritten(None, fetch, threshold, ext, artist, track).value.0 == Null
    ensures TagsForTrack(fetch, threshold, ext, artist, track).Ok?
    ensures TagsForTrack(fetch, threshold, ext, artist, track).value != Null
  {
    var a := TagsForUrl(fetch(ArtistTagsUrl(ext, artist)), threshold, ext);
    var first := MemoAsWritten(None, fetch, threshold, ext, ArtistTagsUrl(ext, artist));
    assert first == Ok((a.value, Some(a.value)));
  }

  // ---------------------------------------------------------------------
  // update_track
  // ---------------------------------------------------------------------

  /** A `track` element of the recent-tracks feed, its `date uts` already read as an integer. */
  datatype TrackEntry = TrackEntry(uts: int, artist: string, artistMbid: Value, name: string, mbid: string, url: string)

  /** The record `update_track` builds for one track; `localTime` turns the feed's UTC seconds into the stored time. */
  function TrackRecord(fetch: Fetcher, threshold: int, ext: Externals, localTime: int -> int, e: TrackEntry)
    : Result<Data, Failure>
  {
    var tags :- TagsForTrack(fetch, threshold, ext, e.artist, e.name);
    Ok(map["artist_name" := Str(e.artist), "artist_mbid" := e.artistMbid, "track_name" := Str(e.name),
           "track_mbid" := Str(e.mbid), "tags" := tags, "url" := Str(e.url), "timestamp" := Time(localTime(e.uts))])
  }

  function Candidate(fetch: Fetcher, threshold: int, ext: Externals, localTime: int -> int): TrackEntry -> Result<Data, Failure> {
    (e: TrackEntry) => TrackRecord(fetch, threshold, ext, localTime, e)
  }

  /**
   * `update_track`: one candidate per feed track, in feed order. The
   * checkpoint it reads is never used, so nothing is filtered.
   */
  function UpdateTrack(tracks: seq<TrackEntry>, fetch: Fetcher, threshold: int, ext: Externals, localTime: int -> int)
    : Result<seq<Data>, Failure>
  {
    Scans.TakeMap(tracks, Scans.Never(), Candidate(fetch, threshold, ext, localTime))
  }

  /** A record as `update_track` as written builds it: the track's names and time, and None for its tags. */
  predicate AsWrittenRecord(d: Data, localTime: int -> int, e: TrackEntry) {
    Has(d, "tags", Null) && Has(d, "artist_name", Str(e.artist)) &&
    Has(d, "track_name", Str(e.name)) && Has(d, "timestamp", Time(localTime(e.uts)))
  }

  /**
   * The record `update_track` builds for one track as written: its tags are
   * the None `tags_for_track` returns, read through the memo as written.
   */
  function TrackRecordAsWritten(cache: Option<seq<string>>, fetch: Fetcher, threshold: int, ext: Externals,
                                localTime: int -> int, e: TrackEntry): (r: Result<(Data, Option<seq<string>>), Failure>)
    ensures r.Ok? ==> AsWrittenRecord(r.value.0, localTime, e) && r.value.1.Some?
    ensures cache.Some? ==> r.Ok? && r.value.1 == cache
    ensures cache.None? ==> (r.Ok? <==> TagsForUrl(fetch(ArtistTagsUrl(ext, e.artist)), threshold, ext).Ok?)
  {
    var (tags, cache1) :- TagsForTrackAsWritten(cache, fetch, threshold, ext, e.artist, e.name);
    Ok((TrackFields(localTime, e, tags), cache1))
  }

  /** The dictionary `update_track` fills for a track, given what it stores as the tags. */
  function TrackFields(localTime: int -> int, e: TrackEntry, tags: Value): (d: Data)
    ensures Has(d, "tags", tags) && Has(d, "artist_name", Str(e.artist)) &&
      Has(d, "track_name", Str(e.name)) && Has(d, "timestamp", Time(localTime(e.uts)))
  {
    map["artist_name" := Str(e.artist), "artist_mbid" := e.artistMbid, "track_name" := Str(e.name),
        "track_mbid" := Str(e.mbid), "tags" := tags, "url" := Str(e.url), "timestamp" := Time(localTime(e.uts))]
  }

  /**
   * `update_track` as written: one record per feed track, in feed order, with
   * the provider's memo entry threaded from track to track. Only the first
   * fetch can fail: once the memo holds an answer every later url is served
   * from it. So the update fails exactly when the memo is empty and the first
   * track's artist document fails with something other than a timeout or a
   * parse error.
   */
  function UpdateTrackAsWritten(tracks: seq<TrackEntry>, cache: Option<seq<string>>, fetch: Fetcher, threshold: int,
                                ext: Externals, localTime: int -> int): (r: Result<(seq<Data>, Option<seq<string>>), Failure>)
    ensures r.Ok? <==>
      cache.Some? || |tracks| == 0 || TagsForUrl(fetch(ArtistTagsUrl(ext, tracks[0].artist)), threshold, ext).Ok?
    ensures cache.Some? ==> r.Ok? && r.value.1 == cache
    decreases |tracks|
  {
    if |tracks| == 0 then Ok(([], cache))
    else
      var (first, cache1) :- TrackRecordAsWritten(cache, fetch, threshold, ext, localTime, tracks[0]);
      // the memo now holds an answer, so the rest of the feed cannot fail
      var (rest, cache2) := UpdateTrackAsWritten(tracks[1..], cache1, fetch, threshold, ext, localTime).value;
      Ok(([first] + rest, cache2))
  }

  /** A successful update as written is the first track's record followed by the rest's, read with the memo it left. */
  lemma AsWrittenCons(tracks: seq<TrackEntry>, cache: Option<seq<string>>, fetch: Fetcher,
                      threshold: int, ext: Externals, localTime: int -> int)
    requires |tracks| > 0 && UpdateTrackAsWritten(tracks, cache, fetch, threshold, ext, localTime).Ok?
    ensures var h := TrackRecordAsWritten(cache, fetch, threshold, ext, localTime, tracks[0]);
      h.Ok? && UpdateTrackAsWritten(tracks[1..], h.value.1, fetch, threshold, ext, localTime).Ok? &&
      UpdateTrackAsWritten(tracks, cache, fetch, threshold, ext, localTime).value.0 ==
        [h.value.0] + UpdateTrackAsWritten(tracks[1..], h.value.1, fetch, threshold, ext, localTime).value.0
  {
  }

  /**
   * As written every record the update emits has None for its tags, with the
   * track's names and time, one per feed track in feed order.
   */
  lemma {:induction false} UpdateTrackAsWrittenNoTags(tracks: seq<TrackEntry>, cache: Option<seq<string>>, fetch: Fetcher,
                                                      threshold: int, ext: Externals, localTime: int -> int)
    requires UpdateTrackAsWritten(tracks, cache, fetch, threshold, ext, localTime).Ok?
    ensures var r := UpdateTrackAsWritten(tracks, cache, fetch, threshold, ext, localTime).value.0;
      |r| == |tracks| && forall i :: 0 <= i < |tracks| ==> AsWrittenRecord(r[i], localTime, tracks[i])
    decreases |tracks|
  {
    if |tracks| > 0 {
      AsWrittenCons(tracks, cache, fetch, threshold, ext, localTime);
      var h := TrackRecordAsWritten(cache, fetch, threshold, ext, localTime, tracks[0]).value;
      var rest := UpdateTrackAsWritten(tracks[1..], h.1, fetch, threshold, ext, localTime).value.0;
      UpdateTrackAsWrittenNoTags(tracks[1..], h.1, fetch, threshold, ext, localTime);
      AsWrittenRecordsCons(h.0, rest, tracks, localTime);
    }
  }

  lemma AsWrittenRecordsCons(first: Data, rest: seq<Data>, tracks: seq<TrackEntry>, localTime: int -> int)
    requires |tracks| > 0 && AsWrittenRecord(first, localTime, tracks[0]) && |rest| == |tracks| - 1
    requires forall i :: 0 <= i < |rest| ==> AsWrittenRecord(rest[i], localTime, tracks[1..][i])
    ensures forall i :: 0 <= i < |tracks| ==> AsWrittenRecord(([first] + rest)[i], localTime, tracks[i])
  {
    forall i | 1 <= i < |tracks| ensures AsWrittenRecord(([first] + rest)[i], localTime, tracks[i]) {
      assert ([first] + rest)[i] == rest[i - 1] && tracks[i] == tracks[1..][i - 1];
    }
  }

  /** One track's candidate: it fails exactly when the track's tags cannot be fetched. */
  lemma CandidateFields(fetch: Fetcher, threshold: int, ext: Externals, localTime: int -> int, e: TrackEntry)
    ensures var c := TrackRecord(fetch, threshold, ext, localTime, e);
      c.Ok? <==> TrackTags(fetch, threshold, ext, e.artist, e.name).Ok?
    ensures var c := TrackRecord(fetch, threshold, ext, localTime, e);
      c.Ok? ==> (TrackTags(fetch, threshold, ext, e.artist, e.name).Ok? &&
        Has(c.value, "artist_name", Str(e.artist)) && Has(c.value, "track_name", Str(e.name)) &&
        Has(c.value, "timestamp", Time(localTime(e.uts))) &&
        Has(c.value, "tags", Str(Join(TrackTags(fetch, threshold, ext, e.artist, e.name).value, " "))))
  {
  }

  /** The update fails exactly when some track's tags cannot be fetched. */
  lemma UpdateTrackFails(tracks: seq<TrackEntry>, fetch: Fetcher, threshold: int, ext: Externals, localTime: int -> int)
    ensures UpdateTrack(tracks, fetch, threshold, ext, localTime).Ok? <==>
      forall i :: 0 <= i < |tracks| ==> TrackTags(fetch, threshold, ext, tracks[i].artist, tracks[i].name).Ok?
  {
    var f := Candidate(fetch, threshold, ext, localTime);
    Scans.TakeMapAllOk(tracks, f);
    forall i | 0 <= i < |tracks|
      ensures f(tracks[i]).Ok? <==> TrackTags(fetch, threshold, ext, tracks[i].artist, tracks[i].name).Ok?
    {
      CandidateFields(fetch, threshold, ext, localTime, tracks[i]);
    }
  }

  /**
   * Every track of the feed, however old, gives the candidate with its
   * names, time and tags, in feed order.
   */
  lemma UpdateTrackAll(tracks: seq<TrackEntry>, fetch: Fetcher, threshold: int, ext: Externals, localTime: int -> int)
    requires UpdateTrack(tracks, fetch, threshold, ext, localTime).Ok?
    ensures var r := UpdateTrack(tracks, fetch, threshold, ext, localTime).value;
      |r| == |tracks| && forall i :: 0 <= i < |tracks| ==> (
        TrackTags(fetch, threshold, ext, tracks[i].artist, tracks[i].name).Ok? &&
        Has(r[i], "artist_name", Str(tracks[i].artist)) && Has(r[i], "track_name", Str(tracks[i].name)) &&
        Has(r[i], "timestamp", Time(localTime(tracks[i].uts))) &&
        Has(r[i], "tags", Str(Join(TrackTags(fetch, threshold, ext, tracks[i].artist, tracks[i].name).value, " "))))
  {
    var f := Candidate(fetch, threshold, ext, localTime);
    var r := UpdateTrack(tracks, fetch, threshold, ext, localTime).value;
    Scans.TakeMapAll(tracks, f);
    forall i | 0 <= i < |tracks|
      ensures TrackTags(fetch, threshold, ext, tracks[i].artist, tracks[i].name).Ok? && Has(r[i], "artist_name", Str(tracks[i].artist)) && Has(r[i], "track_name", Str(tracks[i].name)) &&
        Has(r[i], "timestamp", Time(localTime(tracks[i].uts))) &&
        Has(r[i], "tags", Str(Join(TrackTags(fetch, threshold, ext, tracks[i].artist, tracks[i].name).value, " ")))
    {
      CandidateFields(fetch, threshold, ext, localTime, tracks[i]);
    }
  }

  /** Each candidate's source id is the md5 of its artist, track and time. */
  lemma CandidateSourceId(fetch: Fetcher, threshold: int, ext: Externals, localTime: int -> int, e: TrackEntry)
    requires TrackRecord(fetch, threshold, ext, localTime, e).Ok?
    ensures SourceId(ext, TrackRecord(fetch, threshold, ext, localTime, e).value) ==
            Ok(ext.md5(e.artist + e.name + ext.showTime(localTime(e.uts))))
  {
    var c := TrackRecord(fetch, threshold, ext, localTime, e).value;
    ShowThreeOf(c, "artist_name", "track_name", "timestamp", ext.showTime, e.artist, e.name, localTime(e.uts));
  }

  // ---------------------------------------------------------------------
  // The provider
  // ---------------------------------------------------------------------

  /** `LastfmProvider.enabled`: `LASTFM_USERNAME` is defined. */
  predicate Enabled(hasUsername: bool) {
    hasUsername
  }

  /** The registry key is the lower-case class name. */
  lemma ModelNames()
    ensures TrackCls.name == TrackName && Lower(TrackName) == TrackKey
  {
  }

  /** The provider before `__init__` registers Track. */
  function Unregistered(feed: Result<seq<TrackEntry>, Failure>, fetch: Fetcher, setting: Option<int>, ext: Externals,
                        localTime: int -> int, enabled: bool): Pipeline.Provider
  {
    Pipeline.Provider(
      "LastfmProvider", enabled, {"update_" + Lower(TrackName)}, [],
      (cls: ModelCls, d: Data) => SourceId(ext, d),
      Pipeline.BaseDefaultFields,
      (db: Db, m: string) =>
        if m == TrackKey then
          var tracks :- feed;
          UpdateTrack(tracks, fetch, Threshold(setting), ext, localTime)
        else Err(AttributeError("update_" + m)),
      (db: Db, m: string, cls: ModelCls, d: Data) => Err(NotImplemented),
      (db: Db, o: Obj, m: string, cls: ModelCls, d: Data, created: bool) => Ok(db),
      (db: Db, o: Obj, d: Data) => Ok((db, o)))
  }

  /** `LastfmProvider()`: Track alone is registered, and the base hooks are kept. */
  function Provider(feed: Result<seq<TrackEntry>, Failure>, fetch: Fetcher, setting: Option<int>, ext: Externals,
                    localTime: int -> int, enabled: bool): (r: Pipeline.Provider)
    ensures Pipeline.QueuesOne(r, TrackCls)
    ensures Pipeline.BaseHooks(r) && Pipeline.KeepsValid(r) && r.enabled == enabled
  {
    var base := Unregistered(feed, fetch, setting, ext, localTime, enabled);
    var p := Pipeline.RegisterOne(base, TrackCls, 0);
    Pipeline.BaseKeepsValid(p);
    p
  }
}

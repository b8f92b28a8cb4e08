/**
 * The video models: a video source's embed template and a watched video's
 * document id, read from the query of its URL.
 */
module Videos {
  import opened Wrappers
  import opened Failures
  import opened Strings
  import Urls

  datatype Source = Source(name: string, home: string, embedTemplate: string)

  datatype Video = Video(source: Source, title: string, url: string)

  /** `docid`: the last `=`-separated piece of the URL's query. */
  function Docid(url: string): (r: string)
    ensures '=' !in r
  {
    Last(Split(Urls.Parse(url).query, '='))
  }

  /** The document id is the text after the query's last `=`, or the whole query when it has none. */
  lemma DocidAfterLastEquals(url: string)
    ensures var q := Urls.Parse(url).query;
      Docid(url) == match LastIndexOf(q, '=') case None => q case Some(j) => q[j + 1..]
  {
    SplitLastIsTail(Urls.Parse(url).query, '=');
  }

  /** The prefix of a YouTube watch page URL. */
  const WatchPrefix: string := "http://www.youtube.com/watch?v="

  /** A YouTube watch page URL yields the id it was built from. */
  lemma WatchUrlDocid(url: string, id: string)
    requires '=' !in id && '#' !in id
    requires url == WatchPrefix + id
    ensures Docid(url) == id
  {
    WatchUrlQuery(url, id);
    QueryDocid("v=" + id, id);
  }

  lemma WatchUrlQuery(url: string, id: string)
    requires '#' !in id
    requires url == WatchPrefix + id
    ensures Urls.Parse(url).query == "v=" + id
  {
    var q := "v=" + id;
    WatchUrlAssembled(url, id);
    assert '#' !in q by {
      forall k | 0 <= k < |q| ensures q[k] != '#' {
        if k >= 2 {
          assert q[k] == id[k - 2];
        }
      }
    }
    Urls.ParseAssembled(url, "http", "www.youtube.com", "/watch", Some(q));
  }

  lemma QueryDocid(q: string, id: string)
    requires '=' !in id && q == "v=" + id
    ensures Last(Split(q, '=')) == id
  {
    assert q == "v" + ['='] + id;
    SplitAfterPiece("v", '=', id);
  }

  lemma WatchUrlAssembled(url: string, id: string)
    requires url == WatchPrefix + id
    ensures url == "http" + "://" + "www.youtube.com" + "/watch" + ("?" + ("v=" + id))
  {
    var h := "http" + "://" + "www.youtube.com" + "/watch";
    WatchPrefixPieces();
    SeqAssoc(h + "?", "v=", id);
    SeqAssoc(h, "?", "v=" + id);
  }

  lemma WatchPrefixPieces()
    ensures WatchPrefix == "http" + "://" + "www.youtube.com" + "/watch" + "?" + "v="
  {
  }

  /** `embed_url`: the source's embed template with the document id in place of `%s`. */
  function EmbedUrl(v: Video): Result<string, Failure> {
    Format(v.source.embedTemplate, Docid(v.url))
  }

  /** A watched YouTube video embeds at the template's page for its id. */
  lemma EmbedOfWatchedVideo(v: Video, id: string, before: string, after: string)
    requires '=' !in id && '#' !in id
    requires v.url == WatchPrefix + id
    requires '%' !in before && '%' !in after && v.source.embedTemplate == before + "%s" + after
    ensures EmbedUrl(v) == Ok(before + id + after)
  {
    WatchUrlDocid(v.url, id);
    FormatOne(before, after, id);
  }

  function SourceDisplay(s: Source): string {
    s.name
  }

  function VideoDisplay(v: Video): string {
    v.title
  }
}

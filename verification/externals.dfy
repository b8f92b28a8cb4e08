/**
 * Library functions the modelled code calls but whose internals are not part of
 * this model: hashing, slug and URL quoting, word truncation, date rendering and
 * JSON. They are passed in as values so that every property proved here holds
 * whatever they compute, unless a lemma states an assumption about them.
 */
module Externals {
  /** A piece of a tweet as the URL pattern cuts it: plain text, or one matched URL. */
  datatype Piece = Text(text: string) | Link(url: string)

  datatype Externals = Externals(
    /** `md5.new(s).hexdigest()`. */
    md5: string -> string,
    /** Django's `slugify` filter. */
    slugify: string -> string,
    /** `urllib.quote_plus`. */
    quotePlus: string -> string,
    /** `django.utils.http.urlquote`. */
    urlquote: string -> string,
    /** `django.utils.text.truncate_words(s, n)`. */
    truncateWords: (string, nat) -> string,
    /** `str(d)` of a timestamp. */
    showTime: int -> string,
    /** `simplejson.dumps` of a string-to-string dictionary. */
    jsonDumps: map<string, string> -> string,
    /** `simplejson.loads` of such a dictionary's text. */
    jsonLoads: string -> map<string, string>,
    /** The left-to-right matches of the tweet URL pattern, with the text around them. */
    urlPieces: string -> seq<Piece>
  )

  /** The assumption the EXIF round trip rests on: JSON text decodes to what was encoded, and is never empty. */
  ghost predicate JsonRoundTrips(ext: Externals) {
    forall d :: ext.jsonLoads(ext.jsonDumps(d)) == d && ext.jsonDumps(d) != ""
  }
}

/**
 * Python 2.6's `urlparse.urlsplit` and `urlparse.urlparse` for http(s) URLs,
 * as used for the licence path of a photo, the query of a video URL and the
 * guid of a search history entry. The per-scheme tables (`uses_netloc`,
 * `uses_query`, `uses_params`) are not consulted: every scheme is split the
 * way http is.
 */
module Urls {
  import opened Wrappers
  import opened Strings

  /** `urlsplit`'s five parts. */
  datatype SplitUrl = SplitUrl(scheme: string, netloc: string, path: string, query: string, fragment: string)

  /** `urlparse`'s six parts: `urlsplit` with `;params` cut off the last path segment. */
  datatype ParsedUrl = ParsedUrl(scheme: string, netloc: string, path: string, params: string, query: string, fragment: string)

  predicate SchemeChar(c: char) {
    ('a' <= c <= 'z') || ('A' <= c <= 'Z') || ('0' <= c <= '9') || c == '+' || c == '-' || c == '.'
  }

  predicate SchemeChars(s: string) {
    forall k :: 0 <= k < |s| ==> SchemeChar(s[k])
  }

  /** The first position in `s` holding a character of `cs`, or `|s|` when there is none. */
  function FirstOf(s: string, cs: set<char>): (r: nat)
    ensures r <= |s|
    ensures forall k :: 0 <= k < r ==> s[k] !in cs
    ensures r < |s| ==> s[r] in cs
    decreases |s|
  {
    if |s| == 0 then 0
    else if s[0] in cs then 0
    else 1 + FirstOf(s[1..], cs)
  }

  /** The text before the first `:` is the scheme when it is non-empty and made of scheme characters. */
  function SplitScheme(url: string): (r: (string, string))
    ensures r.0 == "" ==> r.1 == url
  {
    match IndexOf(url, ':')
    case Some(i) =>
      if i > 0 && SchemeChars(url[..i]) then (Lower(url[..i]), url[i + 1..]) else ("", url)
    case None => ("", url)
  }

  /** After a leading `//`, the network location runs up to the first `/`, `?` or `#`. */
  function SplitNetloc(s: string): (r: (string, string))
    ensures r.0 + r.1 == s
    ensures '/' !in r.0 && '?' !in r.0 && '#' !in r.0
    ensures |r.1| > 0 ==> r.1[0] in {'/', '?', '#'}
  {
    var d := FirstOf(s, {'/', '?', '#'});
    assert s[..d] + s[d..] == s;
    (s[..d], s[d..])
  }

  /** Python's `s.split(c, 1)` when `c` occurs in `s`, and `(s, "")` when it does not. */
  function SplitOnce(s: string, c: char): (r: (string, string))
    ensures c !in r.0
    ensures c in s ==> r.0 + [c] + r.1 == s
    ensures c !in s ==> r == (s, "")
    ensures |r.0| <= |s| && r.0 == s[..|r.0|]
    ensures |r.1| <= |s| && r.1 == s[|s| - |r.1|..]
  {
    match IndexOf(s, c)
    case Some(i) =>
      assert s[..i] + [c] + s[i + 1..] == s;
      (s[..i], s[i + 1..])
    case None => (s, "")
  }

  /** A character absent from a string is absent from each of its suffixes. */
  lemma AbsentFromSuffix(s: string, t: string, c: char)
    requires c !in s && |t| <= |s| && t == s[|s| - |t|..]
    ensures c !in t
  {
    forall k | 0 <= k < |t| ensures t[k] != c {
      assert t[k] == s[|s| - |t| + k];
    }
  }

  /** The network location follows a leading `//`; without one it is empty. */
  function SplitAuthority(rest: string): (r: (string, string))
    ensures '/' !in r.0 && '?' !in r.0 && '#' !in r.0
  {
    if |rest| >= 2 && rest[..2] == "//" then SplitNetloc(rest[2..]) else ("", rest)
  }

  /** `urlparse.urlsplit(url)`. */
  function Split(url: string): (r: SplitUrl)
    ensures '/' !in r.netloc && '?' !in r.netloc && '#' !in r.netloc
    ensures '?' !in r.path && '#' !in r.path
    ensures '#' !in r.query
  {
    var sr := SplitScheme(url);
    var nr := SplitAuthority(sr.1);
    var fr := SplitOnce(nr.1, '#');
    var qr := SplitOnce(fr.0, '?');
    AbsentFromSuffix(fr.0, qr.1, '#');
    AbsentFromPrefix(fr.0, qr.0, '#');
    SplitUrl(sr.0, nr.0, qr.0, qr.1, fr.1)
  }

  /** A character absent from a string is absent from each of its prefixes. */
  lemma AbsentFromPrefix(s: string, t: string, c: char)
    requires c !in s && |t| <= |s| && t == s[..|t|]
    ensures c !in t
  {
    forall k | 0 <= k < |t| ensures t[k] != c {
      assert t[k] == s[k];
    }
  }

  /** `urlparse._splitparams`: the parameters follow the first `;` of the last path segment. */
  function SplitParams(path: string): (r: (string, string))
    ensures ';' !in path ==> r == (path, "")
  {
    match LastIndexOf(path, '/')
    case Some(j) =>
      (match IndexOf(path[j..], ';')
       case Some(i) => (path[..j + i], path[j + i + 1..])
       case None => (path, ""))
    case None => SplitOnce(path, ';')
  }

  /** `urlparse.urlparse(url)`. */
  function Parse(url: string): (r: ParsedUrl)
    ensures var s := Split(url);
      r.scheme == s.scheme && r.netloc == s.netloc && r.query == s.query && r.fragment == s.fragment
    ensures ';' !in Split(url).path ==> r.path == Split(url).path && r.params == ""
  {
    var s := Split(url);
    var (path, params) := if ';' in s.path then SplitParams(s.path) else (s.path, "");
    ParsedUrl(s.scheme, s.netloc, path, params, s.query, s.fragment)
  }

  lemma IndexOfAt(s: string, c: char, k: nat)
    requires k < |s| && s[k] == c && c !in s[..k]
    ensures IndexOf(s, c) == Some(k)
  {
    assert c in s;
    var i := IndexOf(s, c).value;
    assert forall j :: 0 <= j < k ==> s[j] != c by {
      forall j | 0 <= j < k ensures s[j] != c { assert s[j] == s[..k][j]; }
    }
    assert forall j :: 0 <= j < i ==> s[j] != c by {
      forall j | 0 <= j < i ensures s[j] != c { assert s[j] == s[..i][j]; }
    }
  }

  lemma FirstOfAt(s: string, cs: set<char>, k: nat)
    requires k <= |s|
    requires forall j :: 0 <= j < k ==> s[j] !in cs
    requires k < |s| ==> s[k] in cs
    ensures FirstOf(s, cs) == k
  {
  }

  predicate LowerAlpha(s: string) {
    forall k :: 0 <= k < |s| ==> 'a' <= s[k] <= 'z'
  }

  lemma SchemeOfAssembled(scheme: string, rest: string)
    requires |scheme| > 0 && LowerAlpha(scheme)
    ensures SplitScheme(scheme + ":" + rest) == (scheme, rest)
  {
    var url := scheme + ":" + rest;
    var n := |scheme|;
    assert url[..n] == scheme;
    assert ':' !in scheme by {
      forall k | 0 <= k < n ensures scheme[k] != ':' { }
    }
    IndexOfAt(url, ':', n);
    assert Lower(scheme) == scheme;
    assert url[n + 1..] == rest;
  }

  lemma NetlocOfAssembled(host: string, tail: string)
    requires '/' !in host && '?' !in host && '#' !in host
    requires |tail| > 0 ==> tail[0] in {'/', '?', '#'}
    ensures SplitNetloc(host + tail) == (host, tail)
  {
    var s := host + tail;
    FirstOfAt(s, {'/', '?', '#'}, |host|);
    assert s[..|host|] == host && s[|host|..] == tail;
  }

  lemma PathQueryOfAssembled(path: string, query: Option<string>)
    requires '?' !in path && '#' !in path
    requires query.Some? ==> '#' !in query.value
    ensures var rest := path + (if query.Some? then "?" + query.value else "");
      SplitOnce(rest, '#') == (rest, "") && SplitOnce(rest, '?') == (path, query.GetOr(""))
  {
    var rest := path + (if query.Some? then "?" + query.value else "");
    if query.Some? {
      assert rest == path + ['?'] + query.value;
      assert '#' !in rest by {
        forall k | 0 <= k < |rest| ensures rest[k] != '#' {
          if k > |path| {
            assert rest[k] == query.value[k - |path| - 1];
          }
        }
      }
      IndexOfAt(rest, '?', |path|);
      assert rest[..|path|] == path;
      assert rest[|path| + 1..] == query.value;
    } else {
      assert rest == path;
    }
  }

  /**
   * The inverse direction: an absolute URL assembled from a lower-case scheme,
   * a host, a path and an optional query splits back into exactly those parts.
   */
  lemma SplitAssembled(scheme: string, host: string, path: string, query: Option<string>)
    requires |scheme| > 0 && LowerAlpha(scheme)
    requires '/' !in host && '?' !in host && '#' !in host
    requires |path| > 0 ==> path[0] == '/'
    requires '?' !in path && '#' !in path
    requires query.Some? ==> '#' !in query.value
    ensures var q := if query.Some? then "?" + query.value else "";
      Split(scheme + "://" + host + path + q)
        == SplitUrl(scheme, host, path, query.GetOr(""), "")
  {
    var q := if query.Some? then "?" + query.value else "";
    var tail := path + q;
    var rest := "//" + (host + tail);
    assert scheme + "://" + host + path + q == scheme + ":" + rest;
    SchemeOfAssembled(scheme, rest);
    assert rest[..2] == "//" && rest[2..] == host + tail;
    NetlocOfAssembled(host, tail);
    PathQueryOfAssembled(path, query);
  }

  /** `urlparse` of an assembled absolute URL returns its path and query unchanged. */
  lemma ParseAssembled(url: string, scheme: string, host: string, path: string, query: Option<string>)
    requires |scheme| > 0 && LowerAlpha(scheme)
    requires '/' !in host && '?' !in host && '#' !in host
    requires |path| > 0 ==> path[0] == '/'
    requires '?' !in path && '#' !in path && ';' !in path
    requires query.Some? ==> '#' !in query.value
    requires url == scheme + "://" + host + path + (if query.Some? then "?" + query.value else "")
    ensures Parse(url).path == path && Parse(url).query == query.GetOr("")
    ensures Parse(url).netloc == host && Parse(url).scheme == scheme
  {
    SplitAssembled(scheme, host, path, query);
  }
}

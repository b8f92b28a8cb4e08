/**
 * The few regular expressions the tweet parser uses, and Python's `re.sub`
 * and `re.findall` over them. A pattern is given by the length of its match
 * at the start of a text (0 when it does not match there); matches are taken
 * leftmost first and never overlap, as `re` takes them.
 */
module Patterns {
  import opened Wrappers
  import opened Failures
  import opened Externals
  import Strings

  /** `\w` without `re.UNICODE`: an ASCII letter or digit, or '_'. */
  predicate IsWordChar(c: char) {
    'a' <= c <= 'z' || 'A' <= c <= 'Z' || '0' <= c <= '9' || c == '_'
  }

  /** `\s`. */
  predicate IsSpace(c: char) {
    c in Strings.Whitespace
  }

  /** The length of the longest prefix of `s` whose characters all satisfy `p`: a greedy `x*`. */
  function Run(s: string, p: char -> bool): (n: nat)
    ensures n <= |s|
    ensures forall k :: 0 <= k < n ==> p(s[k])
    ensures n < |s| ==> !p(s[n])
    decreases |s|
  {
    if |s| > 0 && p(s[0]) then
      var n := Run(s[1..], p);
      assert forall k :: 1 <= k < n + 1 ==> s[k] == s[1..][k - 1];
      n + 1
    else 0
  }

  /** `<sigil>\w+`: the sigil and the word after it. */
  function Sigil(c: char, s: string): (n: nat)
    ensures n <= |s|
    ensures n > 0 ==> n >= 2 && s[0] == c && forall k :: 1 <= k < n ==> IsWordChar(s[k])
    ensures n > 0 && n < |s| ==> !IsWordChar(s[n])
    ensures n == 0 ==> |s| < 2 || s[0] != c || !IsWordChar(s[1])
  {
    if |s| >= 2 && s[0] == c && IsWordChar(s[1]) then
      var w := Run(s[1..], IsWordChar);
      assert forall k :: 1 <= k < w + 1 ==> s[k] == s[1..][k - 1];
      1 + w
    else 0
  }

  /** `#\w+`. */
  function HashTag(s: string): nat {
    Sigil('#', s)
  }

  /** `@\w+`. */
  function UserRef(s: string): nat {
    Sigil('@', s)
  }

  /** `RT\s+(@\w+)`. Whitespace cannot stand where the '@' is needed, so the greedy run never backtracks. */
  function Retweet(s: string): (n: nat)
    ensures n <= |s|
    ensures n > 0 ==> n > 2 && s[0] == 'R' && s[1] == 'T'
  {
    if |s| >= 2 && s[0] == 'R' && s[1] == 'T' then
      var w := Run(s[2..], IsSpace);
      if w > 0 && UserRef(s[2 + w..]) > 0 then 2 + w + UserRef(s[2 + w..]) else 0
    else 0
  }

  /** The `(?P<username>@\w+)` group of a `Retweet` match. */
  function RetweetUser(m: string): string {
    if |m| >= 2 then
      var w := Run(m[2..], IsSpace);
      m[2 + w..]
    else m
  }

  /**
   * The text cut at the matches of `pat`: every match a `Link` piece, every
   * other character a `Text` piece of its own.
   */
  function Segments(s: string, pat: string -> nat): (r: seq<Piece>)
    ensures forall k :: 0 <= k < |r| && r[k].Link? ==> |r[k].url| > 0
    decreases |s|
  {
    if |s| == 0 then []
    else
      var n := pat(s);
      if 0 < n <= |s| then [Link(s[..n])] + Segments(s[n..], pat)
      else [Text([s[0]])] + Segments(s[1..], pat)
  }

  /** The text the pieces spell, left to right. */
  function Flatten(ps: seq<Piece>): string
    decreases |ps|
  {
    if |ps| == 0 then ""
    else (match ps[0] case Text(t) => t case Link(u) => u) + Flatten(ps[1..])
  }

  /** Cutting a text at the matches loses nothing: the pieces spell the text again. */
  lemma {:induction false} FlattenSegments(s: string, pat: string -> nat)
    ensures Flatten(Segments(s, pat)) == s
    decreases |s|
  {
    if |s| > 0 {
      var n := pat(s);
      var ps := Segments(s, pat);
      if 0 < n <= |s| {
        FlattenSegments(s[n..], pat);
        assert ps[1..] == Segments(s[n..], pat);
        assert s == s[..n] + s[n..];
      } else {
        FlattenSegments(s[1..], pat);
        assert ps[1..] == Segments(s[1..], pat);
        assert s == [s[0]] + s[1..];
      }
    }
  }

  /** The matched pieces, left to right. */
  function Matches(ps: seq<Piece>): (r: seq<string>)
    ensures |r| <= |ps|
    decreases |ps|
  {
    if |ps| == 0 then []
    else if ps[0].Link? then [ps[0].url] + Matches(ps[1..])
    else Matches(ps[1..])
  }

  /** Every matched piece is among the matches. */
  lemma {:induction false} MatchesHas(ps: seq<Piece>)
    ensures forall k :: 0 <= k < |ps| && ps[k].Link? ==> ps[k].url in Matches(ps)
    decreases |ps|
  {
    if |ps| > 0 {
      MatchesHas(ps[1..]);
      assert forall k :: 1 <= k < |ps| ==> ps[k] == ps[1..][k - 1];
    }
  }

  /** The text the pieces spell once every match is replaced by `repl` of it; the first failing replacement propagates. */
  function Replace(ps: seq<Piece>, repl: string -> Result<string, Failure>): Result<string, Failure>
    decreases |ps|
  {
    if |ps| == 0 then Ok("")
    else
      var head :- match ps[0] case Text(t) => Ok(t) case Link(u) => repl(u);
      var rest :- Replace(ps[1..], repl);
      Ok(head + rest)
  }

  /** Replacing every match by itself gives back the text the pieces spell. */
  lemma {:induction false} ReplaceIdentity(ps: seq<Piece>)
    ensures Replace(ps, (m: string) => Ok(m)) == Ok(Flatten(ps))
    decreases |ps|
  {
    if |ps| > 0 {
      ReplaceIdentity(ps[1..]);
    }
  }

  /** A replacement that never fails on the matches makes the whole replacement succeed. */
  lemma {:induction false} ReplaceOk(ps: seq<Piece>, repl: string -> Result<string, Failure>)
    requires forall k :: 0 <= k < |ps| && ps[k].Link? ==> repl(ps[k].url).Ok?
    ensures Replace(ps, repl).Ok?
    decreases |ps|
  {
    if |ps| > 0 {
      assert forall k :: 1 <= k < |ps| ==> ps[k] == ps[1..][k - 1];
      ReplaceOk(ps[1..], repl);
    }
  }

  /** `re.findall(pat, s)` for a pattern without groups. */
  function FindAll(s: string, pat: string -> nat): seq<string> {
    Matches(Segments(s, pat))
  }

  /** `re.sub(pat, repl, s)`. */
  function Sub(s: string, pat: string -> nat, repl: string -> Result<string, Failure>): Result<string, Failure> {
    Replace(Segments(s, pat), repl)
  }

  /** Whatever holds of every prefix the pattern matches holds of every match `findall` returns. */
  lemma {:induction false} FindAllSatisfy(s: string, pat: string -> nat, good: string -> bool)
    requires forall t :: 0 < pat(t) <= |t| ==> good(t[..pat(t)])
    ensures forall m :: m in FindAll(s, pat) ==> good(m)
    decreases |s|
  {
    if |s| > 0 {
      var n := pat(s);
      var ps := Segments(s, pat);
      if 0 < n <= |s| {
        FindAllSatisfy(s[n..], pat, good);
        assert ps[1..] == Segments(s[n..], pat);
      } else {
        FindAllSatisfy(s[1..], pat, good);
        assert ps[1..] == Segments(s[1..], pat);
      }
    }
  }

  /** A match of `<sigil>\w+`: the sigil, then at least one word character and nothing else. */
  predicate Tagged(c: char, m: string) {
    |m| >= 2 && m[0] == c && forall k :: 1 <= k < |m| ==> IsWordChar(m[k])
  }

  /** Every `#\w+` match `findall` returns is a '#' and a word. */
  lemma HashTagsTagged(s: string)
    ensures forall m :: m in FindAll(s, HashTag) ==> Tagged('#', m)
  {
    forall t | 0 < HashTag(t) <= |t| ensures Tagged('#', t[..HashTag(t)]) {
      var n := HashTag(t);
      assert forall k :: 0 <= k < n ==> t[..n][k] == t[k];
    }
    FindAllSatisfy(s, HashTag, m => Tagged('#', m));
  }

  /** A replacement that never fails makes `re.sub` succeed. */
  lemma SubOk(s: string, pat: string -> nat, repl: string -> Result<string, Failure>)
    requires forall m :: repl(m).Ok?
    ensures Sub(s, pat, repl).Ok?
  {
    ReplaceOk(Segments(s, pat), repl);
  }

  /** Substituting each match by itself changes nothing. */
  lemma SubIdentity(s: string, pat: string -> nat)
    ensures Sub(s, pat, (m: string) => Ok(m)) == Ok(s)
  {
    ReplaceIdentity(Segments(s, pat));
    FlattenSegments(s, pat);
  }

  /** A text in which the pattern matches nowhere is left as it is, whatever the replacement. */
  lemma {:induction false} SubNoMatch(s: string, pat: string -> nat, repl: string -> Result<string, Failure>)
    requires forall k :: 0 <= k < |s| ==> pat(s[k..]) == 0
    ensures Sub(s, pat, repl) == Ok(s)
    ensures FindAll(s, pat) == []
    decreases |s|
  {
    if |s| > 0 {
      assert pat(s[0..]) == 0 by { assert s[0..] == s; }
      forall k | 0 <= k < |s| - 1 ensures pat(s[1..][k..]) == 0 {
        assert s[1..][k..] == s[k + 1..];
      }
      SubNoMatch(s[1..], pat, repl);
      assert s == [s[0]] + s[1..];
    }
  }

  /** A text that is one whole match is replaced whole. */
  lemma SubWhole(s: string, pat: string -> nat, repl: string -> Result<string, Failure>)
    requires |s| > 0 && pat(s) == |s|
    ensures Sub(s, pat, repl) == repl(s)
    ensures FindAll(s, pat) == [s]
  {
    assert s[..|s|] == s && s[|s|..] == [];
    assert Segments(s[|s|..], pat) == [];
    var ps := Segments(s, pat);
    assert ps == [Link(s[..|s|])] + Segments(s[|s|..], pat);
    assert ps == [Link(s)];
    assert ps[1..] == [];
    assert Replace(ps[1..], repl) == Ok("");
    assert Matches(ps[1..]) == [];
    if repl(s).Ok? {
      assert repl(s).value + "" == repl(s).value;
    }
  }
}

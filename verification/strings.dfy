/**
 * The Python string operations the modelled code relies on: `join`, `split`,
 * `startswith`/`endswith`, substring `in`, `replace(pat, "")`, `strip`,
 * `lower`, `str(int)`, `int(str)`, slicing and `template % value`.
 */
module Strings {
  import opened Wrappers
  import opened Failures

  /** Python's `sep.join(parts)`. */
  function Join(parts: seq<string>, sep: string): string
  {
    if |parts| == 0 then ""
    else if |parts| == 1 then parts[0]
    else parts[0] + sep + Join(parts[1..], sep)
  }

  lemma JoinCons(x: string, rest: seq<string>, sep: string)
    ensures Join([x] + rest, sep) == if |rest| == 0 then x else x + sep + Join(rest, sep)
  {
    assert ([x] + rest)[1..] == rest;
  }

  /** Joining a list of two or three strings puts the separator between them. */
  lemma JoinSmall(a: string, b: string, c: string, sep: string)
    ensures Join([a, b], sep) == a + sep + b
    ensures Join([a, b, c], sep) == a + sep + b + sep + c
  {
    assert [a, b][1..] == [b];
    assert [a, b, c][1..] == [b, c];
    assert [b, c][1..] == [c];
    assert Join([b, c], sep) == b + sep + c;
    assert Join([a, b, c], sep) == a + sep + (b + sep + c);
    SeqAssoc(a + sep, b + sep, c);
    SeqAssoc(a + sep, b, sep);
  }

  /** Joining two non-empty lists is joining each and putting the separator between them. */
  lemma {:induction false} JoinAppend(a: seq<string>, b: seq<string>, sep: string)
    requires |a| > 0 && |b| > 0
    ensures Join(a + b, sep) == Join(a, sep) + sep + Join(b, sep)
    decreases |a|
  {
    if |a| == 1 {
      JoinCons(a[0], b, sep);
    } else {
      JoinAppend(a[1..], b, sep);
      assert (a + b)[1..] == a[1..] + b;
      JoinCons(a[0], a[1..] + b, sep);
    }
  }

  /** Python's `s.split(c)` for a one-character separator: never empty, no piece holds `c`. */
  function Split(s: string, c: char): (r: seq<string>)
    ensures |r| >= 1
    ensures forall i :: 0 <= i < |r| ==> c !in r[i]
    ensures c !in s ==> r == [s]
    decreases |s|
  {
    if |s| == 0 then [""]
    else
      var rest := Split(s[1..], c);
      if s[0] == c then [""] + rest
      else
        var head := [s[0]] + rest[0];
        assert c !in head;
        assert c !in s ==> c !in s[1..] && head == s by {
          if c !in s {
            assert forall k :: 0 <= k < |s[1..]| ==> s[1..][k] == s[k + 1];
            assert s == [s[0]] + s[1..];
          }
        }
        [head] + rest[1..]
  }

  /** Splitting a string on `c` after a first piece free of `c` yields that piece and then the rest's pieces. */
  lemma {:induction false} SplitAfterPiece(a: string, c: char, b: string)
    requires c !in a
    ensures Split(a + [c] + b, c) == [a] + Split(b, c)
    decreases |a|
  {
    var s := a + [c] + b;
    if |a| == 0 {
      assert s == [c] + b;
      assert s[1..] == b;
    } else {
      assert s[1..] == a[1..] + [c] + b;
      SplitAfterPiece(a[1..], c, b);
      assert a == [a[0]] + a[1..];
    }
  }

  /** A string without `c` splits into itself alone. */
  lemma SplitAbsent(s: string, c: char)
    requires c !in s
    ensures Split(s, c) == [s]
  {
    SplitJoin(s, c);
  }

  /** The inverse of `SplitJoin`: pieces free of `c`, joined with `c`, split back into the same pieces. */
  lemma {:induction false} SplitOfJoin(pieces: seq<string>, c: char)
    requires |pieces| > 0
    requires forall i :: 0 <= i < |pieces| ==> c !in pieces[i]
    ensures Split(Join(pieces, [c]), c) == pieces
    decreases |pieces|
  {
    if |pieces| == 1 {
      SplitAbsent(pieces[0], c);
    } else {
      SplitOfJoin(pieces[1..], c);
      SplitAfterPiece(pieces[0], c, Join(pieces[1..], [c]));
      assert pieces == [pieces[0]] + pieces[1..];
    }
  }

  function Last<T>(s: seq<T>): T
    requires |s| > 0
  {
    s[|s| - 1]
  }

  /** Splitting on `c` and joining the pieces with `c` gives back the original string. */
  lemma {:induction false} SplitJoin(s: string, c: char)
    ensures Join(Split(s, c), [c]) == s
    decreases |s|
  {
    if |s| > 0 {
      var rest := Split(s[1..], c);
      SplitJoin(s[1..], c);
      if s[0] == c {
        JoinCons("", rest, [c]);
        assert s == [c] + s[1..];
      } else {
        assert rest == [rest[0]] + rest[1..];
        JoinCons([s[0]] + rest[0], rest[1..], [c]);
        JoinCons(rest[0], rest[1..], [c]);
        assert s == [s[0]] + s[1..];
      }
    }
  }

  /** Splitting around one occurrence of `c` splits each side separately. */
  lemma {:induction false} SplitConcat(a: string, c: char, b: string)
    ensures Split(a + [c] + b, c) == Split(a, c) + Split(b, c)
    decreases |a|
  {
    if |a| == 0 {
      SplitCons(c, b, c);
      assert a + [c] + b == [c] + b;
    } else {
      var x, a' := a[0], a[1..];
      var t := a' + [c] + b;
      assert a + [c] + b == [x] + t;
      assert a == [x] + a';
      SplitCons(x, t, c);
      SplitCons(x, a', c);
      SplitConcat(a', c, b);
      var ra, rb := Split(a', c), Split(b, c);
      if x == c {
        SeqAssoc([""], ra, rb);
      } else {
        SplitAppendHead(ra, rb);
        SeqAssoc([[x] + ra[0]], ra[1..], rb);
      }
    }
  }

  /** One step of `Split`: the first character either ends the first piece or joins it. */
  lemma SplitCons(x: char, t: string, c: char)
    ensures Split([x] + t, c) ==
      if x == c then [""] + Split(t, c) else [[x] + Split(t, c)[0]] + Split(t, c)[1..]
  {
    assert ([x] + t)[1..] == t;
  }

  lemma SeqAssoc<T>(x: seq<T>, y: seq<T>, z: seq<T>)
    ensures x + (y + z) == (x + y) + z
  {
  }

  lemma SplitAppendHead(ra: seq<string>, rb: seq<string>)
    requires |ra| > 0
    ensures (ra + rb)[0] == ra[0] && (ra + rb)[1..] == ra[1..] + rb
  {
  }

  /**
   * The last piece of `Split(s, c)` is the text after the last `c` in `s`,
   * or all of `s` when `s` holds no `c`.
   */
  lemma SplitLastIsTail(s: string, c: char)
    ensures Last(Split(s, c)) == match LastIndexOf(s, c) case None => s case Some(j) => s[j + 1..]
  {
    match LastIndexOf(s, c)
    case None =>
    case Some(j) =>
      assert s == s[..j] + [c] + s[j + 1..];
      SplitConcat(s[..j], c, s[j + 1..]);
  }

  /** Python's `s.find(c)`: the first position of `c`, `None` standing for -1. */
  function IndexOf(s: string, c: char): (r: Option<nat>)
    ensures r.None? <==> c !in s
    ensures r.Some? ==> r.value < |s| && s[r.value] == c && c !in s[..r.value]
    decreases |s|
  {
    if |s| == 0 then None
    else if s[0] == c then Some(0)
    else
      match IndexOf(s[1..], c)
      case None => None
      case Some(i) =>
        assert s[..i + 1] == [s[0]] + s[1..][..i];
        Some(i + 1)
  }

  /** Python's `s.rfind(c)`: the last position of `c`, `None` standing for -1. */
  function LastIndexOf(s: string, c: char): (r: Option<nat>)
    ensures r.None? <==> c !in s
    ensures r.Some? ==> r.value < |s| && s[r.value] == c && c !in s[r.value + 1..]
    decreases |s|
  {
    if |s| == 0 then None
    else if s[|s| - 1] == c then Some(|s| - 1)
    else
      match LastIndexOf(s[..|s| - 1], c)
      case None => None
      case Some(i) =>
        assert s[i + 1..] == s[..|s| - 1][i + 1..] + [s[|s| - 1]];
        Some(i)
  }

  predicate StartsWith(s: string, prefix: string) {
    prefix <= s
  }

  predicate EndsWith(s: string, suffix: string) {
    |suffix| <= |s| && s[|s| - |suffix|..] == suffix
  }

  /** Python's substring test `sub in s`. */
  predicate Contains(s: string, sub: string)
    decreases |s|
  {
    sub <= s || (|s| > 0 && Contains(s[1..], sub))
  }

  predicate OccursAt(s: string, sub: string, i: int) {
    0 <= i && i + |sub| <= |s| && s[i..i + |sub|] == sub
  }

  /** `sub in s` holds exactly when `sub` occurs at some position of `s`. */
  lemma ContainsAt(s: string, sub: string)
    ensures Contains(s, sub) <==> exists i :: OccursAt(s, sub, i)
  {
    if Contains(s, sub) {
      ContainsOccurs(s, sub);
    }
    if exists i :: OccursAt(s, sub, i) {
      var i :| OccursAt(s, sub, i);
      OccursContains(s, sub, i);
    }
  }

  lemma {:induction false} ContainsOccurs(s: string, sub: string)
    requires Contains(s, sub)
    ensures exists i :: OccursAt(s, sub, i)
    decreases |s|
  {
    if sub <= s {
      assert s[0..|sub|] == sub;
      assert OccursAt(s, sub, 0);
    } else {
      ContainsOccurs(s[1..], sub);
      var i :| OccursAt(s[1..], sub, i);
      assert s[i + 1..i + 1 + |sub|] == s[1..][i..i + |sub|];
      assert OccursAt(s, sub, i + 1);
    }
  }

  lemma {:induction false} OccursContains(s: string, sub: string, i: int)
    requires OccursAt(s, sub, i)
    ensures Contains(s, sub)
    decreases i
  {
    if i == 0 {
      assert sub <= s;
    } else {
      assert s[1..][i - 1..i - 1 + |sub|] == s[i..i + |sub|];
      OccursContains(s[1..], sub, i - 1);
    }
  }

  /** A pattern whose first character does not occur in `s` is not in `s`. */
  lemma {:induction false} HeadAbsentNotContained(s: string, sub: string)
    requires |sub| > 0 && sub[0] !in s
    ensures !Contains(s, sub)
    decreases |s|
  {
    if |s| > 0 {
      assert s[1..] == s[1..] && sub[0] !in s[1..];
      HeadAbsentNotContained(s[1..], sub);
    }
  }

  /** Python's `s.replace(pat, "")`: drops every left-to-right, non-overlapping occurrence of `pat`. */
  function RemoveAll(s: string, pat: string): (r: string)
    requires |pat| > 0
    ensures |r| <= |s|
    decreases |s|
  {
    if |s| == 0 then ""
    else if pat <= s then RemoveAll(s[|pat|..], pat)
    else [s[0]] + RemoveAll(s[1..], pat)
  }

  /** A string without `pat` in it is left alone. */
  lemma {:induction false} RemoveAllAbsent(s: string, pat: string)
    requires |pat| > 0 && !Contains(s, pat)
    ensures RemoveAll(s, pat) == s
    decreases |s|
  {
    if |s| > 0 {
      RemoveAllAbsent(s[1..], pat);
    }
  }

  /** Removing every occurrence of a single character leaves none of it. */
  lemma {:induction false} RemoveAllChar(s: string, c: char)
    ensures c !in RemoveAll(s, [c])
    ensures forall x :: x != c ==> multiset(RemoveAll(s, [c]))[x] == multiset(s)[x]
    decreases |s|
  {
    if |s| > 0 {
      RemoveAllChar(s[1..], c);
      assert s == [s[0]] + s[1..];
      if s[0] == c {
        assert [c] <= s;
      } else {
        assert !([c] <= s);
        assert RemoveAll(s, [c]) == [s[0]] + RemoveAll(s[1..], [c]);
      }
    }
  }

  /** The characters Python's argument-less `strip()` removes (ASCII whitespace). */
  const Whitespace: set<char> := {' ', '\t', '\n', '\r', '\U{000B}', '\U{000C}'}

  /** The number of leading characters of `s` that belong to `cs`. */
  function Leading(s: string, cs: set<char>): (n: nat)
    ensures n <= |s|
    ensures forall k :: 0 <= k < n ==> s[k] in cs
    ensures n < |s| ==> s[n] !in cs
    decreases |s|
  {
    if |s| > 0 && s[0] in cs then
      var n := Leading(s[1..], cs);
      assert forall k :: 1 <= k < n + 1 ==> s[k] == s[1..][k - 1];
      n + 1
    else 0
  }

  /** Drops leading characters that belong to `cs`. */
  function StripLeft(s: string, cs: set<char>): (r: string)
    ensures |r| <= |s| && r == s[|s| - |r|..]
    ensures forall k :: 0 <= k < |s| - |r| ==> s[k] in cs
    ensures |r| > 0 ==> r[0] !in cs
  {
    var n := Leading(s, cs);
    s[n..]
  }

  /** Drops trailing characters that belong to `cs`. */
  function StripRight(s: string, cs: set<char>): (r: string)
    ensures |r| <= |s| && r == s[..|r|]
    ensures forall k :: |r| <= k < |s| ==> s[k] in cs
    ensures |r| > 0 ==> r[|r| - 1] !in cs
    decreases |s|
  {
    if |s| > 0 && s[|s| - 1] in cs then
      var r := StripRight(s[..|s| - 1], cs);
      assert s[..|s| - 1][..|r|] == s[..|r|];
      assert forall k :: |r| <= k < |s| - 1 ==> s[k] == s[..|s| - 1][k];
      r
    else s
  }

  /** Python's `s.strip(chars)`: both ends trimmed of characters in `cs`. */
  function Strip(s: string, cs: set<char>): (r: string)
    ensures |r| > 0 ==> r[0] !in cs && r[|r| - 1] !in cs
    ensures |s| > 0 && s[0] !in cs && s[|s| - 1] !in cs ==> r == s
  {
    StripRight(StripLeft(s, cs), cs)
  }

  function LowerChar(c: char): char {
    if 'A' <= c <= 'Z' then (c as int + 32) as char else c
  }

  /** Python's `s.lower()` on ASCII text. */
  function Lower(s: string): (r: string)
    ensures |r| == |s|
    ensures forall i :: 0 <= i < |s| ==> r[i] == LowerChar(s[i])
  {
    if |s| == 0 then "" else [LowerChar(s[0])] + Lower(s[1..])
  }

  predicate IsDigit(c: char) {
    '0' <= c <= '9'
  }

  predicate AllDigits(s: string) {
    forall i :: 0 <= i < |s| ==> IsDigit(s[i])
  }

  function DigitChar(d: nat): (c: char)
    requires d < 10
    ensures IsDigit(c)
  {
    ('0' as int + d) as char
  }

  function DigitValue(c: char): nat
    requires IsDigit(c)
  {
    c as int - '0' as int
  }

  /** The value of a string of decimal digits. */
  function DigitsValue(s: string): nat
    requires AllDigits(s)
    decreases |s|
  {
    if |s| == 0 then 0 else DigitsValue(s[..|s| - 1]) * 10 + DigitValue(s[|s| - 1])
  }

  /** Python's `str(n)` for a natural number: its canonical decimal numeral. */
  function NatToString(n: nat): (r: string)
    ensures |r| >= 1 && AllDigits(r)
    ensures |r| > 1 ==> r[0] != '0'
    decreases n
  {
    if n < 10 then [DigitChar(n)] else NatToString(n / 10) + [DigitChar(n % 10)]
  }

  /** Python's `str(i)` for an integer. */
  function IntToString(i: int): string {
    if i < 0 then "-" + NatToString(-i) else NatToString(i)
  }

  lemma {:induction false} NatToStringValue(n: nat)
    ensures DigitsValue(NatToString(n)) == n
    decreases n
  {
    if n >= 10 {
      NatToStringValue(n / 10);
      var s := NatToString(n);
      assert s[..|s| - 1] == NatToString(n / 10);
    }
  }

  /**
   * Python's `int(s)` on a string: optional surrounding whitespace, an optional
   * sign, then one or more ASCII digits; anything else is a ValueError (`None`).
   */
  function ParseInt(s: string): Option<int> {
    var t := Strip(s, Whitespace);
    if |t| > 0 && (t[0] == '-' || t[0] == '+') then
      var ds := t[1..];
      if |ds| > 0 && AllDigits(ds) then
        Some(if t[0] == '-' then -(DigitsValue(ds) as int) else DigitsValue(ds))
      else None
    else if |t| > 0 && AllDigits(t) then Some(DigitsValue(t))
    else None
  }

  lemma DigitIsNotSpace(c: char)
    requires IsDigit(c)
    ensures c !in Whitespace
  {
  }

  /** `int(str(i)) == i`. */
  lemma IntToStringParses(i: int)
    ensures ParseInt(IntToString(i)) == Some(i)
  {
    if i < 0 {
      NegativeParses(i);
    } else {
      NatToStringParses(i);
    }
  }

  lemma NatToStringParses(n: nat)
    ensures ParseInt(NatToString(n)) == Some(n)
  {
    var s := NatToString(n);
    NatToStringValue(n);
    DigitIsNotSpace(s[0]);
    DigitIsNotSpace(s[|s| - 1]);
    assert Strip(s, Whitespace) == s;
  }

  lemma NegativeParses(i: int)
    requires i < 0
    ensures ParseInt(IntToString(i)) == Some(i)
  {
    var d := NatToString(-i);
    var s := IntToString(i);
    assert s == "-" + d;
    NatToStringValue(-i);
    assert DigitsValue(d) == -i;
    NegativeNumeral(s, d);
  }

  /** A minus sign followed by digits parses as the negated digit value. */
  lemma NegativeNumeral(s: string, d: string)
    requires |d| > 0 && AllDigits(d) && s == "-" + d
    ensures ParseInt(s) == Some(-(DigitsValue(d) as int))
  {
    assert s[0] == '-' && '-' !in Whitespace;
    assert s[|s| - 1] == d[|d| - 1];
    DigitIsNotSpace(d[|d| - 1]);
    var t := Strip(s, Whitespace);
    assert t == s;
    assert t[1..] == d;
  }

  function SliceTo<T>(s: seq<T>, n: int): (r: seq<T>)
    ensures r <= s
    ensures 0 <= n ==> |r| == if n <= |s| then n else |s|
    ensures n < 0 ==> |r| == if -n <= |s| then |s| + n else 0
  {
    if 0 <= n then (if n <= |s| then s[..n] else s)
    else if -n <= |s| then s[..|s| + n]
    else []
  }

  /** The conversions of a `%` directive that demand a number: a string argument raises TypeError. */
  predicate NumericConversion(c: char) {
    c in "diouxXeEfFgGc"
  }

  /**
   * Counts the `%s` directives of a `%` template; `%%` is a literal percent
   * sign, a numeric conversion cannot take the string argument (TypeError)
   * and any other directive is unsupported (ValueError).
   */
  function Directives(t: string): Result<nat, Failure>
    decreases |t|
  {
    if |t| == 0 then Ok(0)
    else if t[0] != '%' then Directives(t[1..])
    else if |t| == 1 then Err(ValueError("incomplete format"))
    else if t[1] == '%' then Directives(t[2..])
    else if t[1] == 's' then
      match Directives(t[2..])
      case Ok(n) => Ok(n + 1)
      case Err(e) => Err(e)
    else if NumericConversion(t[1]) then Err(TypeError("a number is required, not str"))
    else Err(ValueError("unsupported format character"))
  }

  /** Substitutes `arg` for every `%s` and `%` for every `%%`. */
  function Render(t: string, arg: string): string
    decreases |t|
  {
    if |t| >= 2 && t[0] == '%' && t[1] == '%' then "%" + Render(t[2..], arg)
    else if |t| >= 2 && t[0] == '%' && t[1] == 's' then arg + Render(t[2..], arg)
    else if |t| == 0 then ""
    else [t[0]] + Render(t[1..], arg)
  }

  /**
   * Python's `template % arg` for one string argument: exactly one `%s` must
   * consume it, otherwise a TypeError or ValueError is raised.
   */
  function Format(template: string, arg: string): Result<string, Failure> {
    match Directives(template)
    case Err(e) => Err(e)
    case Ok(n) =>
      if n == 0 then Err(TypeError("not all arguments converted during string formatting"))
      else if n > 1 then Err(TypeError("not enough arguments for format string"))
      else Ok(Render(template, arg))
  }

  lemma {:induction false} PlainPrefix(p: string, rest: string, arg: string)
    requires '%' !in p
    ensures Directives(p + rest) == Directives(rest)
    ensures Render(p + rest, arg) == p + Render(rest, arg)
    decreases |p|
  {
    if |p| > 0 {
      var t := p + rest;
      assert t[0] == p[0] && p[0] != '%';
      assert t[1..] == p[1..] + rest;
      PlainPrefix(p[1..], rest, arg);
      assert Directives(t) == Directives(t[1..]);
      assert Render(t, arg) == [p[0]] + Render(t[1..], arg);
      assert p == [p[0]] + p[1..];
      assert [p[0]] + (p[1..] + Render(rest, arg)) == p + Render(rest, arg);
    } else {
      assert p + rest == rest;
    }
  }

  /** A template with one `%s` and no other `%` formats to the argument in its place. */
  lemma FormatOne(p: string, q: string, arg: string)
    requires '%' !in p && '%' !in q
    ensures Format(p + "%s" + q, arg) == Ok(p + arg + q)
  {
    var u := "%s" + q;
    assert u[0] == '%' && u[1] == 's';
    assert u[2..] == q;
    PlainPrefix(q, "", arg);
    assert q + "" == q;
    assert Directives("") == Ok(0) && Render("", arg) == "";
    assert Directives(q) == Ok(0) && Render(q, arg) == q;
    assert Directives(u) == Ok(1);
    assert Render(u, arg) == arg + q;
    PlainPrefix(p, u, arg);
    assert p + "%s" + q == p + u;
    assert Directives(p + u) == Ok(1);
    assert Render(p + u, arg) == p + (arg + q);
    assert p + (arg + q) == p + arg + q;
  }

  /** A template without any `%` cannot consume the argument. */
  lemma FormatWithoutDirective(t: string, arg: string)
    requires '%' !in t
    ensures Format(t, arg).Err? && Format(t, arg).error.TypeError?
  {
    PlainPrefix(t, "", arg);
    assert t + "" == t;
    assert Directives("") == Ok(0);
  }
}

/** Text helpers with the meaning of the Python string operations the
    crawlers and the playground use: `str.split(c)` on one character,
    `sep.join(parts)`, `str.startswith`, `pat in s`, `str.replace` and
    `str.upper`. */
module Strings {

  /** `s.startswith(prefix)` */
  predicate StartsWith(s: string, prefix: string)
  {
    |prefix| <= |s| && s[..|prefix|] == prefix
  }

  /** `pat in s` (substring containment) */
  predicate Contains(s: string, pat: string)
    decreases |s|
  {
    StartsWith(s, pat) || (|s| > 0 && Contains(s[1..], pat))
  }

  /** `s.split(sep)` for a one-character separator: the maximal runs
      between separators, including empty ones; never an empty list. */
  function Split(s: string, sep: char): (parts: seq<string>)
    ensures |parts| >= 1
    decreases |s|
  {
    if s == [] then [""]
    else
      var rest := Split(s[1..], sep);
      if s[0] == sep then [""] + rest
      else [[s[0]] + rest[0]] + rest[1..]
  }

  /** `parts[-1]` */
  function Last(parts: seq<string>): string
    requires |parts| > 0
  {
    parts[|parts| - 1]
  }

  /** `sep.join(parts)` */
  function Join(parts: seq<string>, sep: string): string
    decreases |parts|
  {
    if |parts| == 0 then ""
    else if |parts| == 1 then parts[0]
    else parts[0] + sep + Join(parts[1..], sep)
  }

  /** No piece of a split holds the separator. */
  lemma {:induction false} SplitPartsFree(s: string, sep: char)
    ensures forall i :: 0 <= i < |Split(s, sep)| ==> sep !in Split(s, sep)[i]
    decreases |s|
  {
    if s != [] {
      SplitPartsFree(s[1..], sep);
    }
  }

  /** A string splits into one piece exactly when it has no separator,
      and that piece is the string itself. */
  lemma {:induction false} SplitSingle(s: string, sep: char)
    ensures |Split(s, sep)| == 1 <==> sep !in s
    ensures sep !in s ==> Split(s, sep) == [s]
    decreases |s|
  {
    if s != [] {
      SplitSingle(s[1..], sep);
      if s[0] != sep && sep !in s[1..] {
        assert [s[0]] + s[1..] == s;
      }
    }
  }

  /** The text after the last separator (`s.split(sep)[-1]`) is a suffix of
      `s` free of the separator; when `s` holds a separator, the character
      just before that suffix is one. */
  lemma {:induction false} SplitLast(s: string, sep: char)
    ensures var r := Last(Split(s, sep));
      && sep !in r
      && |r| <= |s| && s[|s| - |r|..] == r
      && (sep in s ==> |r| < |s| && s[|s| - |r| - 1] == sep)
    decreases |s|
  {
    SplitPartsFree(s, sep);
    if s != [] {
      var rest := Split(s[1..], sep);
      SplitLast(s[1..], sep);
      SplitSingle(s[1..], sep);
      var r := Last(Split(s, sep));
      if s[0] == sep {
        assert r == Last(rest);
        if sep !in s[1..] {
          assert rest == [s[1..]];
        }
      } else if |rest| > 1 {
        assert r == Last(rest);
      } else {
        assert rest == [s[1..]];
        assert r == [s[0]] + s[1..] == s;
      }
    }
  }

  /** The text before the first separator (`s.split(sep)[0]`) is a prefix
      of `s` free of the separator, followed in `s` by a separator unless it
      is all of `s`. */
  lemma {:induction false} SplitFirst(s: string, sep: char)
    ensures var r := Split(s, sep)[0];
      && sep !in r
      && |r| <= |s| && s[..|r|] == r
      && (|r| < |s| ==> s[|r|] == sep)
    decreases |s|
  {
    SplitPartsFree(s, sep);
    if s != [] {
      SplitFirst(s[1..], sep);
    }
  }

  /** The part before the first separator of `a + [sep] + b` is `a`, when
      `a` holds no separator. */
  lemma {:induction false} SplitFirstOfJoined(a: string, sep: char, b: string)
    requires sep !in a
    ensures Split(a + [sep] + b, sep)[0] == a
    decreases |a|
  {
    if a == [] {
      assert a + [sep] + b == [sep] + b;
    } else {
      assert (a + [sep] + b)[1..] == a[1..] + [sep] + b;
      SplitFirstOfJoined(a[1..], sep, b);
      assert [a[0]] + a[1..] == a;
    }
  }

  /** `s.replace(pat, rep)`: every non-overlapping occurrence of `pat`,
      scanning left to right, becomes `rep`. */
  function Replace(s: string, pat: string, rep: string): string
    requires |pat| > 0
    decreases |s|
  {
    if |s| < |pat| then s
    else if s[..|pat|] == pat then rep + Replace(s[|pat|..], pat, rep)
    else [s[0]] + Replace(s[1..], pat, rep)
  }

  /** Replacing a pattern that does not occur changes nothing. */
  lemma {:induction false} ReplaceAbsent(s: string, pat: string, rep: string)
    requires |pat| > 0
    requires !Contains(s, pat)
    ensures Replace(s, pat, rep) == s
    decreases |s|
  {
    if |s| >= |pat| {
      ReplaceAbsent(s[1..], pat, rep);
      assert [s[0]] + s[1..] == s;
    }
  }

  /** Text holding no copy of the pattern's first character passes through
      a replacement untouched. */
  lemma {:induction false} ReplaceSkips(a: string, s: string, pat: string, rep: string)
    requires |pat| > 0
    requires pat[0] !in a
    ensures Replace(a + s, pat, rep) == a + Replace(s, pat, rep)
    decreases |a|
  {
    if a != [] {
      var t := a + s;
      assert t[0] == a[0] != pat[0];
      if |t| >= |pat| {
        assert t[..|pat|] != pat by { assert t[..|pat|][0] == a[0]; }
        assert t[1..] == a[1..] + s;
        ReplaceSkips(a[1..], s, pat, rep);
        calc {
          Replace(t, pat, rep);
          [a[0]] + Replace(a[1..] + s, pat, rep);
          [a[0]] + (a[1..] + Replace(s, pat, rep));
          { assert [a[0]] + a[1..] == a; }
          a + Replace(s, pat, rep);
        }
      } else {
        assert Replace(s, pat, rep) == s;
      }
    } else {
      assert a + s == s;
    }
  }

  /** A string without the pattern's first character does not contain it. */
  lemma {:induction false} NotContainsWithoutHead(s: string, pat: string)
    requires |pat| > 0
    requires pat[0] !in s
    ensures !Contains(s, pat)
    decreases |s|
  {
    if |pat| <= |s| {
      assert s[..|pat|][0] == s[0];
    }
    if s != [] {
      NotContainsWithoutHead(s[1..], pat);
    }
  }

  /** ASCII letters `a`..`z` upper-cased, anything else kept. */
  function UpperChar(c: char): char
  {
    if 'a' <= c <= 'z' then (c as int - 32) as char else c
  }

  /** `s.upper()` on ASCII text */
  function Upper(s: string): (r: string)
    ensures |r| == |s|
    ensures forall i :: 0 <= i < |s| ==> r[i] == UpperChar(s[i])
    decreases |s|
  {
    if s == [] then [] else [UpperChar(s[0])] + Upper(s[1..])
  }
}

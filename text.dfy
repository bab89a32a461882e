/**
 * The few Python string operations the core relies on, as functions on
 * `seq<char>`: `isalnum`, `upper`, `lower`, `strip`, `replace`, `join`,
 * `split`, `in` on strings, and the ordering `sort` uses for strings.
 * Letters and digits are the ASCII ones (see README, "Left out").
 */
module Text {

  predicate IsAsciiLetter(c: char) { 'a' <= c <= 'z' || 'A' <= c <= 'Z' }

  predicate IsAsciiDigit(c: char) { '0' <= c <= '9' }

  predicate IsAlnumChar(c: char) { IsAsciiLetter(c) || IsAsciiDigit(c) }

  /** `s.isalnum()`: non-empty, and every character a letter or a digit. */
  predicate IsAlnum(s: string) {
    |s| > 0 && forall i :: 0 <= i < |s| ==> IsAlnumChar(s[i])
  }

  /** The characters `str.isspace()` accepts (and so `str.strip()` removes). */
  predicate IsSpace(c: char) {
    || ('\t' <= c <= '\r')                // \t \n \x0b \x0c \r
    || ('\U{1C}' <= c <= '\U{1F}')        // file, group, record and unit separators
    || c == ' ' || c == '\U{85}' || c == '\U{A0}' || c == '\U{1680}'
    || ('\U{2000}' <= c <= '\U{200A}')
    || c == '\U{2028}' || c == '\U{2029}' || c == '\U{202F}' || c == '\U{205F}'
    || c == '\U{3000}'
  }

  function UpperChar(c: char): char {
    if 'a' <= c <= 'z' then (c as int - 32) as char else c
  }

  function LowerChar(c: char): char {
    if 'A' <= c <= 'Z' then (c as int + 32) as char else c
  }

  /** `s.upper()` */
  function Upper(s: string): string {
    seq(|s|, i requires 0 <= i < |s| => UpperChar(s[i]))
  }

  /** `s.lower()` */
  function Lower(s: string): string {
    seq(|s|, i requires 0 <= i < |s| => LowerChar(s[i]))
  }

  /** Lower-casing forgets an earlier upper-casing. */
  lemma LowerUpper(s: string)
    ensures Lower(Upper(s)) == Lower(s)
  {
    forall i | 0 <= i < |s| ensures Lower(Upper(s))[i] == Lower(s)[i] {
      var c := s[i];
      if 'a' <= c <= 'z' {
        assert UpperChar(c) as int == c as int - 32;
        assert LowerChar(UpperChar(c)) == c == LowerChar(c);
      }
    }
  }

  /** `pat in s` for strings: `pat` starts at some position of `s`. */
  predicate Contains(s: string, pat: string)
    decreases |s|
  {
    StartsWith(s, pat) || (|s| > 0 && Contains(s[1..], pat))
  }

  /** `s.startswith(p)` */
  predicate StartsWith(s: string, p: string) {
    |p| <= |s| && s[..|p|] == p
  }

  /** Number of occurrences of the character `c` in `s`. */
  function CountChar(s: string, c: char): nat {
    multiset(s)[c]
  }

  lemma CountCharAbsent(s: string, c: char)
    requires forall i :: 0 <= i < |s| ==> s[i] != c
    ensures CountChar(s, c) == 0
  {
    assert c !in s;
  }

  lemma CountCharAppend(a: string, b: string, c: char)
    ensures CountChar(a + b, c) == CountChar(a, c) + CountChar(b, c)
  {
    assert multiset(a + b) == multiset(a) + multiset(b);
  }

  // ---------------------------------------------------------------------
  // strip

  /** Index of the first character of `s`, from `k` on, that is not white space. */
  function SkipSpaces(s: string, k: nat): (i: nat)
    requires k <= |s|
    ensures k <= i <= |s|
    ensures forall m :: k <= m < i ==> IsSpace(s[m])
    ensures i == |s| || !IsSpace(s[i])
    decreases |s| - k
  {
    if k < |s| && IsSpace(s[k]) then SkipSpaces(s, k + 1) else k
  }

  /** End of `s[lo..j]` once the white space at its end, down to `lo`, is cut. */
  function TrimEnd(s: string, lo: nat, j: nat): (e: nat)
    requires lo <= j <= |s|
    requires forall m :: j <= m < |s| ==> IsSpace(s[m])
    ensures lo <= e <= j
    ensures forall m :: e <= m < |s| ==> IsSpace(s[m])
    ensures e == lo || !IsSpace(s[e - 1])
    decreases j
  {
    if lo < j && IsSpace(s[j - 1]) then TrimEnd(s, lo, j - 1) else j
  }

  /**
   * `s.strip()`: the result is a slice of `s` that neither starts nor ends
   * with white space, and everything cut away on either side is white space.
   */
  function Strip(s: string): (r: string)
    ensures r == [] || (!IsSpace(r[0]) && !IsSpace(r[|r| - 1]))
    ensures var i := SkipSpaces(s, 0);
              && i <= |s| - |r|
              && r == s[i..i + |r|]
              && (forall k :: 0 <= k < i ==> IsSpace(s[k]))
              && (forall k :: i + |r| <= k < |s| ==> IsSpace(s[k]))
  {
    var i := SkipSpaces(s, 0);
    var e := TrimEnd(s, i, |s|);
    s[i..e]
  }

  /** Stripping twice strips nothing more. */
  lemma StripIdempotent(s: string)
    ensures Strip(Strip(s)) == Strip(s)
  {
    var r := Strip(s);
    var i := SkipSpaces(r, 0);
    assert i == 0;
    var e := TrimEnd(r, 0, |r|);
    assert e == |r|;
    assert r[0..|r|] == r;
  }

  // ---------------------------------------------------------------------
  // replace

  /**
   * `s.replace(pat, rep)`: every occurrence of `pat`, found scanning left to
   * right without overlaps, is replaced by `rep`.
   */
  function Replace(s: string, pat: string, rep: string): string
    requires |pat| > 0
    decreases |s|
  {
    if |s| == 0 then ""
    else if StartsWith(s, pat) then rep + Replace(s[|pat|..], pat, rep)
    else [s[0]] + Replace(s[1..], pat, rep)
  }

  /** Removing one character keeps exactly the other characters. */
  lemma {:induction false} RemoveCharMembership(s: string, c: char, x: char)
    ensures x in Replace(s, [c], "") <==> x in s && x != c
    decreases |s|
  {
    if |s| > 0 {
      RemoveCharMembership(s[1..], c, x);
      assert s == [s[0]] + s[1..];
      if StartsWith(s, [c]) {
        assert s[0] == c;
      }
    }
  }

  /** When some character of `pat` never occurs in `s`, `replace` changes nothing. */
  lemma {:induction false} ReplaceAbsent(s: string, pat: string, rep: string, c: char)
    requires |pat| > 0 && c in pat && c !in s
    ensures Replace(s, pat, rep) == s
    decreases |s|
  {
    if |s| > 0 {
      ReplaceAbsent(s[1..], pat, rep, c);
      assert s == [s[0]] + s[1..];
    }
  }

  /** Removing a suffix pattern whose first character the stem lacks leaves the stem. */
  lemma {:induction false} RemoveSuffix(stem: string, pat: string)
    requires |pat| > 0 && pat[0] !in stem
    ensures Replace(stem + pat, pat, "") == stem
    decreases |stem|
  {
    var s := stem + pat;
    if |stem| == 0 {
      assert s == pat && StartsWith(s, pat);
      assert s[|pat|..] == "";
    } else {
      assert !StartsWith(s, pat) by { assert s[0] == stem[0]; }
      assert s[1..] == stem[1..] + pat;
      RemoveSuffix(stem[1..], pat);
      assert stem == [stem[0]] + stem[1..];
    }
  }

  // ---------------------------------------------------------------------
  // join and split

  /** `sep.join(xs)` */
  function Join(xs: seq<string>, sep: string): string
    decreases |xs|
  {
    if |xs| == 0 then ""
    else if |xs| == 1 then xs[0]
    else xs[0] + sep + Join(xs[1..], sep)
  }

  /** `s.split(c)` for a one-character separator: never an empty list. */
  function Split(s: string, c: char): (r: seq<string>)
    ensures |r| >= 1
    decreases |s|
  {
    if |s| == 0 then [""]
    else
      var rest := Split(s[1..], c);
      if s[0] == c then [""] + rest
      else [[s[0]] + rest[0]] + rest[1..]
  }

  lemma {:induction false} SplitWithoutSeparator(s: string, c: char)
    requires c !in s
    ensures Split(s, c) == [s]
    decreases |s|
  {
    if |s| > 0 {
      SplitWithoutSeparator(s[1..], c);
      assert s == [s[0]] + s[1..];
    }
  }

  lemma {:induction false} SplitAtFirstSeparator(a: string, b: string, c: char)
    requires c !in a
    ensures Split(a + [c] + b, c) == [a] + Split(b, c)
    decreases |a|
  {
    var s := a + [c] + b;
    if |a| == 0 {
      assert s[0] == c && s[1..] == b;
    } else {
      assert s[0] == a[0] && s[1..] == a[1..] + [c] + b;
      SplitAtFirstSeparator(a[1..], b, c);
      assert a == [a[0]] + a[1..];
    }
  }

  /** Splitting a joined list gives the list back when no element holds the separator. */
  lemma {:induction false} SplitJoin(xs: seq<string>, c: char)
    requires |xs| >= 1
    requires forall e :: e in xs ==> c !in e
    ensures Split(Join(xs, [c]), c) == xs
    decreases |xs|
  {
    if |xs| == 1 {
      SplitWithoutSeparator(xs[0], c);
    } else {
      SplitJoin(xs[1..], c);
      SplitAtFirstSeparator(xs[0], Join(xs[1..], [c]), c);
      assert xs == [xs[0]] + xs[1..];
    }
  }

  /** `split` returns one piece more than there are separators. */
  lemma {:induction false} SplitLength(s: string, c: char)
    ensures |Split(s, c)| == CountChar(s, c) + 1
    decreases |s|
  {
    if |s| > 0 {
      SplitLength(s[1..], c);
      assert s == [s[0]] + s[1..];
      CountCharAppend([s[0]], s[1..], c);
    }
  }

  /** The separators of a join, plus those inside one element, are all in the joined text. */
  lemma {:induction false} JoinCountsSeparators(xs: seq<string>, c: char, i: nat)
    requires i < |xs|
    ensures CountChar(Join(xs, [c]), c) >= |xs| - 1 + CountChar(xs[i], c)
    decreases |xs|
  {
    if |xs| >= 2 {
      var rest := Join(xs[1..], [c]);
      CountCharAppend(xs[0] + [c], rest, c);
      CountCharAppend(xs[0], [c], c);
      if i == 0 {
        JoinCountsSeparators(xs[1..], c, 0);
      } else {
        JoinCountsSeparators(xs[1..], c, i - 1);
      }
    }
  }

  lemma JoinIsEmpty(xs: seq<string>, sep: string)
    requires |sep| > 0
    ensures Join(xs, sep) == "" <==> xs == [] || xs == [""]
  {
    if |xs| >= 2 {
      assert |Join(xs, sep)| >= |sep|;
    }
  }

  // ---------------------------------------------------------------------
  // ordering of strings (Python compares strings code point by code point)

  predicate StrLe(a: string, b: string)
    decreases |a|
  {
    if |a| == 0 then true
    else if |b| == 0 then false
    else if a[0] != b[0] then a[0] < b[0]
    else StrLe(a[1..], b[1..])
  }

  lemma {:induction false} StrLeTotal(a: string, b: string)
    ensures StrLe(a, b) || StrLe(b, a)
    decreases |a|
  {
    if |a| > 0 && |b| > 0 && a[0] == b[0] {
      StrLeTotal(a[1..], b[1..]);
    }
  }
}

/**
 The string helpers of Go's `strings` package that the scanner relies on:
 splitting on a one-character separator, joining, and trimming white space.
 */
module Text {

  /** Go's `unicode.IsSpace`: the Latin-1 spaces and the Unicode White_Space property. */
  predicate IsSpace(c: char) {
    || c == ' '
    || ('\t' <= c <= '\r')  // tab, line feed, vertical tab, form feed, carriage return
    || c == '\U{0085}' || c == '\U{00A0}' || c == '\U{1680}'
    || ('\U{2000}' <= c <= '\U{200A}')
    || c == '\U{2028}' || c == '\U{2029}' || c == '\U{202F}' || c == '\U{205F}' || c == '\U{3000}'
  }

  predicate NoSpace(s: string) {
    forall i :: 0 <= i < |s| ==> !IsSpace(s[i])
  }

  predicate AllSpace(s: string) {
    forall i :: 0 <= i < |s| ==> IsSpace(s[i])
  }

  /** True when `s` neither starts nor ends with white space. */
  predicate Trimmed(s: string) {
    s == [] || (!IsSpace(s[0]) && !IsSpace(s[|s| - 1]))
  }

  /** Drops leading white space: the result is the longest suffix that does not start with a space. */
  function TrimLeft(s: string): (r: string)
    ensures |r| <= |s| && r == s[|s| - |r|..]
    ensures AllSpace(s[..|s| - |r|])
    ensures r == [] || !IsSpace(r[0])
  {
    if |s| > 0 && IsSpace(s[0]) then
      var r := TrimLeft(s[1..]);
      var n := |s| - |r|;
      assert forall i :: 1 <= i < n ==> s[..n][i] == s[1..][..n - 1][i - 1];
      r
    else s
  }

  /** Drops trailing white space: the result is the longest prefix that does not end with a space. */
  function TrimRight(s: string): (r: string)
    ensures |r| <= |s| && r == s[..|r|]
    ensures AllSpace(s[|r|..])
    ensures r == [] || !IsSpace(r[|r| - 1])
  {
    if |s| > 0 && IsSpace(s[|s| - 1]) then
      var r := TrimRight(s[..|s| - 1]);
      assert s[|r|..] == s[..|s| - 1][|r|..] + [s[|s| - 1]];
      r
    else s
  }

  /** `r` is the slice of `s` at offset `a`, with only white space around it. */
  predicate Surrounded(s: string, a: int, r: string) {
    && 0 <= a && a + |r| <= |s|
    && r == s[a..a + |r|]
    && AllSpace(s[..a])
    && AllSpace(s[a + |r|..])
  }

  /** Go's `strings.TrimSpace`. */
  function TrimSpace(s: string): (r: string)
    ensures Trimmed(r)
    ensures Surrounded(s, |s| - |TrimLeft(s)|, r)
  {
    TrimSpaceSlice(s, TrimLeft(s), TrimRight(TrimLeft(s)));
    TrimRight(TrimLeft(s))
  }

  lemma TrimSpaceSlice(s: string, t: string, r: string)
    requires |t| <= |s| && t == s[|s| - |t|..]
    requires |r| <= |t| && r == t[..|r|]
    requires AllSpace(t[|r|..])
    requires r == [] || !IsSpace(r[|r| - 1])
    requires t == [] || !IsSpace(t[0])
    requires AllSpace(s[..|s| - |t|])
    ensures Trimmed(r)
    ensures Surrounded(s, |s| - |t|, r)
  {
    var a := |s| - |t|;
    assert r == [] || r[0] == t[0];
    assert s[a + |r|..] == t[|r|..];
  }

  /** Leading white space in front of a string that starts with a non-space is exactly what `TrimLeft` drops. */
  lemma {:induction false} TrimLeftAfterSpace(lead: string, x: string)
    requires AllSpace(lead)
    requires x == [] || !IsSpace(x[0])
    ensures TrimLeft(lead + x) == x
  {
    if |lead| == 0 {
      assert lead + x == x;
    } else {
      var s := lead + x;
      assert s[0] == lead[0] && s[1..] == lead[1..] + x;
      TrimLeftAfterSpace(lead[1..], x);
    }
  }

  lemma {:induction false} TrimRightBeforeSpace(x: string, trail: string)
    requires AllSpace(trail)
    requires x == [] || !IsSpace(x[|x| - 1])
    ensures TrimRight(x + trail) == x
  {
    if |trail| == 0 {
      assert x + trail == x;
    } else {
      var s := x + trail;
      var n := |trail| - 1;
      assert s[|s| - 1] == trail[n] && s[..|s| - 1] == x + trail[..n];
      TrimRightBeforeSpace(x, trail[..n]);
    }
  }

  /** Trimming is determined by the decomposition into white space, a trimmed middle and white space. */
  lemma TrimSpaceUnique(lead: string, middle: string, trail: string)
    requires AllSpace(lead) && AllSpace(trail) && Trimmed(middle)
    ensures TrimSpace(lead + middle + trail) == middle
  {
    if middle == [] {
      assert lead + middle + trail == (lead + trail) + [];
      TrimLeftAfterSpace(lead + trail, []);
    } else {
      assert lead + middle + trail == lead + (middle + trail);
      TrimLeftAfterSpace(lead, middle + trail);
      TrimRightBeforeSpace(middle, trail);
    }
  }

  /** A string that is already trimmed is left unchanged. */
  lemma TrimSpaceOfTrimmed(s: string)
    requires Trimmed(s)
    ensures TrimSpace(s) == s
  {
    TrimSpaceUnique([], s, []);
    assert [] + s + [] == s;
  }

  /** Go's `strings.Split(s, sep)` for a one-character separator: the maximal separator-free runs. */
  function Split(s: string, sep: char): (fields: seq<string>)
    ensures |fields| >= 1
    ensures forall i :: 0 <= i < |fields| ==> sep !in fields[i]
  {
    if |s| == 0 then [""]
    else
      var rest := Split(s[1..], sep);
      if s[0] == sep then [""] + rest
      else [[s[0]] + rest[0]] + rest[1..]
  }

  /** There is one field more than there are separators. */
  lemma {:induction false} SplitCount(s: string, sep: char)
    ensures |Split(s, sep)| == multiset(s)[sep] + 1
  {
    if |s| > 0 {
      SplitCount(s[1..], sep);
      assert s == [s[0]] + s[1..];
    }
  }

  /** A string without the separator is a single field. */
  lemma SplitWithoutSeparator(s: string, sep: char)
    requires sep !in s
    ensures Split(s, sep) == [s]
  {
    SplitCount(s, sep);
    assert multiset(s)[sep] == 0;
    JoinSplit(s, sep);
  }

  /** Go's `strings.Join(fields, sep)` for a non-empty list and a one-character separator. */
  function Join(fields: seq<string>, sep: char): string
    requires |fields| >= 1
  {
    if |fields| == 1 then fields[0] else fields[0] + [sep] + Join(fields[1..], sep)
  }

  /** A join whose first field is non-empty is non-empty. */
  lemma {:induction false} JoinNonEmpty(fields: seq<string>, sep: char)
    requires |fields| >= 1 && fields[0] != ""
    ensures Join(fields, sep) != ""
  {
  }

  /** Joining the fields of a split gives the original string back. */
  lemma {:induction false} JoinSplit(s: string, sep: char)
    ensures Join(Split(s, sep), sep) == s
  {
    if |s| > 0 {
      var rest := Split(s[1..], sep);
      JoinSplit(s[1..], sep);
      if s[0] == sep {
        assert Split(s, sep) == [""] + rest;
      } else {
        var fields := Split(s, sep);
        assert fields[0] == [s[0]] + rest[0];
        if |rest| == 1 {
          assert s == [s[0]] + rest[0];
        } else {
          assert fields[1..] == rest[1..];
          assert Join(rest, sep) == rest[0] + [sep] + Join(rest[1..], sep);
          assert s == [s[0]] + s[1..];
        }
      }
    }
  }

  /** A separator directly after a separator-free run ends the first field. */
  lemma {:induction false} SplitAfterField(a: string, sep: char, b: string)
    requires sep !in a
    ensures Split(a + [sep] + b, sep) == [a] + Split(b, sep)
  {
    if |a| == 0 {
      assert a + [sep] + b == [sep] + b;
      assert ([sep] + b)[1..] == b;
    } else {
      SplitAfterField(a[1..], sep, b);
      assert (a + [sep] + b)[1..] == a[1..] + [sep] + b;
      assert [a[0]] + a[1..] == a;
    }
  }

  /** Splitting a join of separator-free fields gives the fields back. */
  lemma {:induction false} SplitJoin(fields: seq<string>, sep: char)
    requires |fields| >= 1
    requires forall i :: 0 <= i < |fields| ==> sep !in fields[i]
    ensures Split(Join(fields, sep), sep) == fields
  {
    if |fields| == 1 {
      SplitWithoutSeparator(fields[0], sep);
    } else {
      SplitJoin(fields[1..], sep);
      SplitAfterField(fields[0], sep, Join(fields[1..], sep));
      assert fields == [fields[0]] + fields[1..];
    }
  }

  /** A trailing separator adds one empty last field. */
  lemma {:induction false} SplitTrailingSeparator(s: string, sep: char)
    ensures Split(s + [sep], sep) == Split(s, sep) + [""]
  {
    if |s| == 0 {
      assert [] + [sep] == [sep];
    } else {
      SplitTrailingSeparator(s[1..], sep);
      assert (s + [sep])[1..] == s[1..] + [sep];
      assert (s + [sep])[0] == s[0];
    }
  }
}

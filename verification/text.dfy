/** The few pieces of Python string handling the pipeline relies on: `str.split` with a
    one-character separator (the `~` of request ids, the `/` of paths), `s.split(pat)[0]`
    with a longer pattern, and the decimal rendering of a natural number (`f"user{i}"`). */
module Text {
  import Seqs

  /** Python's `s.split(sep)` for a one-character separator: the maximal runs of
      characters between separators, so never empty and never containing `sep`. */
  function Split(s: string, sep: char): (parts: seq<string>)
    ensures |parts| >= 1
    ensures forall i :: 0 <= i < |parts| ==> sep !in parts[i]
  {
    if s == [] then [""]
    else
      var rest := Split(s[1..], sep);
      if s[0] == sep then [""] + rest
      else [[s[0]] + rest[0]] + rest[1..]
  }

  /** Python's `sep.join(parts)`. */
  function Join(parts: seq<string>, sep: char): string
    requires |parts| >= 1
  {
    if |parts| == 1 then parts[0] else parts[0] + [sep] + Join(parts[1..], sep)
  }

  /** `s.split(sep)[0]` */
  function First(s: string, sep: char): string
  {
    Split(s, sep)[0]
  }

  /** `s.split(sep)[-1]` */
  function Last(s: string, sep: char): string
  {
    var parts := Split(s, sep);
    parts[|parts| - 1]
  }

  /** Joining the pieces of a split gives back the original text. */
  lemma {:induction false} JoinOfSplit(s: string, sep: char)
    ensures Join(Split(s, sep), sep) == s
  {
    if s != [] {
      JoinOfSplit(s[1..], sep);
      var rest := Split(s[1..], sep);
      if s[0] == sep {
        assert Split(s, sep) == [""] + rest;
        assert Join([""] + rest, sep) == "" + [sep] + Join(rest, sep);
        assert s == [s[0]] + s[1..];
      } else {
        var parts := [[s[0]] + rest[0]] + rest[1..];
        assert Split(s, sep) == parts;
        if |rest| == 1 {
          assert Join(parts, sep) == [s[0]] + rest[0];
          assert Join(rest, sep) == rest[0];
        } else {
          assert parts[1..] == rest[1..];
          assert Join(parts, sep) == [s[0]] + rest[0] + [sep] + Join(rest[1..], sep);
          assert Join(rest, sep) == rest[0] + [sep] + Join(rest[1..], sep);
        }
        assert s == [s[0]] + s[1..];
      }
    }
  }

  /** A text without the separator splits into itself alone. */
  lemma {:induction false} SplitWithoutSeparator(s: string, sep: char)
    requires sep !in s
    ensures Split(s, sep) == [s]
  {
    if s != [] {
      assert s[1..] == s[|s| - (|s| - 1)..];
      assert sep !in s[1..] by {
        forall k | 0 <= k < |s[1..]| ensures s[1..][k] != sep { assert s[1..][k] == s[k + 1]; }
      }
      SplitWithoutSeparator(s[1..], sep);
      assert s == [s[0]] + s[1..];
    }
  }

  /** Splitting `a + sep + b` splits `a` and `b` independently. */
  lemma {:induction false} SplitAround(a: string, sep: char, b: string)
    ensures Split(a + [sep] + b, sep) == Split(a, sep) + Split(b, sep)
  {
    if a == [] {
      assert a + [sep] + b == [sep] + b;
      SplitConsSeparator(sep, b, sep);
    } else {
      SplitAround(a[1..], sep, b);
      SplitAroundStep(a, sep, b);
    }
  }

  lemma SplitAroundStep(a: string, sep: char, b: string)
    requires a != []
    requires Split(a[1..] + [sep] + b, sep) == Split(a[1..], sep) + Split(b, sep)
    ensures Split(a + [sep] + b, sep) == Split(a, sep) + Split(b, sep)
  {
    assert a == [a[0]] + a[1..];
    assert a + [sep] + b == [a[0]] + (a[1..] + [sep] + b);
    if a[0] == sep {
      SplitAroundSeparator(a[0], a[1..], sep, b);
    } else {
      SplitAroundOther(a[0], a[1..], sep, b);
    }
  }

  lemma SplitAroundSeparator(c: char, rest: string, sep: char, b: string)
    requires c == sep
    requires Split(rest + [sep] + b, sep) == Split(rest, sep) + Split(b, sep)
    ensures Split([c] + (rest + [sep] + b), sep) == Split([c] + rest, sep) + Split(b, sep)
  {
    var ra := Split(rest, sep);
    var rb := Split(b, sep);
    SplitConsSeparator(c, rest + [sep] + b, sep);
    SplitConsSeparator(c, rest, sep);
    Seqs.ConcatAssociative([""], ra, rb);
  }

  lemma SplitAroundOther(c: char, rest: string, sep: char, b: string)
    requires c != sep
    requires Split(rest + [sep] + b, sep) == Split(rest, sep) + Split(b, sep)
    ensures Split([c] + (rest + [sep] + b), sep) == Split([c] + rest, sep) + Split(b, sep)
  {
    var ra := Split(rest, sep);
    var rb := Split(b, sep);
    SplitConsOther(c, rest + [sep] + b, sep);
    SplitConsOther(c, rest, sep);
    Seqs.ConcatTail(ra, rb);
    Seqs.ConcatAssociative([[c] + ra[0]], ra[1..], rb);
  }

  /** A leading separator ends an empty first part. */
  lemma SplitConsSeparator(c: char, t: string, sep: char)
    requires c == sep
    ensures Split([c] + t, sep) == [""] + Split(t, sep)
  {
    assert ([c] + t)[1..] == t;
  }

  /** Any other leading character joins the first part. */
  lemma SplitConsOther(c: char, t: string, sep: char)
    requires c != sep
    ensures Split([c] + t, sep) == [[c] + Split(t, sep)[0]] + Split(t, sep)[1..]
  {
    assert ([c] + t)[1..] == t;
  }

  /** Splitting a join of separator-free pieces gives the pieces back. */
  lemma {:induction false} SplitOfJoin(parts: seq<string>, sep: char)
    requires |parts| >= 1
    requires forall i :: 0 <= i < |parts| ==> sep !in parts[i]
    ensures Split(Join(parts, sep), sep) == parts
  {
    SplitWithoutSeparator(parts[0], sep);
    if |parts| > 1 {
      SplitOfJoin(parts[1..], sep);
      SplitAround(parts[0], sep, Join(parts[1..], sep));
      assert parts == [parts[0]] + parts[1..];
    }
  }

  /** The first `~` segment of `a~b` is `a` whenever `a` holds no separator. */
  lemma FirstOfJoined(a: string, sep: char, b: string)
    requires sep !in a
    ensures First(a + [sep] + b, sep) == a
  {
    SplitAround(a, sep, b);
    SplitWithoutSeparator(a, sep);
  }

  /** The last segment of `a~b` is `b` whenever `b` holds no separator, whatever `a` is. */
  lemma LastOfJoined(a: string, sep: char, b: string)
    requires sep !in b
    ensures Last(a + [sep] + b, sep) == b
  {
    SplitAround(a, sep, b);
    SplitWithoutSeparator(b, sep);
  }

  /** `pat` starts at index `i` of `s`. */
  predicate OccursAt(s: string, pat: string, i: nat)
  {
    i + |pat| <= |s| && s[i..i + |pat|] == pat
  }

  /** Python's `s.split(pat)[0]`: the text before the first occurrence of `pat`,
      or all of `s` when `pat` does not occur. */
  function BeforeFirst(s: string, pat: string): (r: string)
    requires |pat| > 0
    ensures r <= s
    ensures forall i :: 0 <= i < |r| ==> !OccursAt(s, pat, i)
    ensures |r| < |s| ==> OccursAt(s, pat, |r|)
    decreases |s|
  {
    if |s| < |pat| then s
    else if s[..|pat|] == pat then ""
    else
      var r := [s[0]] + BeforeFirst(s[1..], pat);
      assert forall i :: 0 < i <= |r| ==> (OccursAt(s, pat, i) <==> OccursAt(s[1..], pat, i - 1)) by {
        forall i | 0 < i <= |r| ensures OccursAt(s, pat, i) <==> OccursAt(s[1..], pat, i - 1) {
          OccursShifted(s, pat, i);
        }
      }
      r
  }

  /** `pat` starts at index `i > 0` of `s` exactly when it starts at `i - 1` of `s[1..]`. */
  lemma OccursShifted(s: string, pat: string, i: nat)
    requires 0 < i && s != []
    ensures OccursAt(s, pat, i) <==> OccursAt(s[1..], pat, i - 1)
  {
    if i + |pat| <= |s| {
      forall k | i <= k < i + |pat| ensures s[k] == s[1..][k - 1] { }
      assert s[i..i + |pat|] == s[1..][i - 1..i - 1 + |pat|];
    }
  }

  /** If `s` is `head + pat + tail` and `pat` does not start anywhere inside `head`, the cut is `head`. */
  lemma BeforeFirstOfJoined(head: string, pat: string, tail: string)
    requires |pat| > 0
    requires forall i :: 0 <= i < |head| ==> !OccursAt(head + pat + tail, pat, i)
    ensures BeforeFirst(head + pat + tail, pat) == head
  {
    var s := head + pat + tail;
    var r := BeforeFirst(s, pat);
    assert s[|head|..|head| + |pat|] == pat;
    assert OccursAt(s, pat, |head|);
    assert |r| <= |head|;
    assert |r| < |s|;
    assert OccursAt(s, pat, |r|);
    assert r == s[..|r|] == head;
  }

  /** If `pat` never occurs in `s`, the cut is all of `s`. */
  lemma BeforeFirstAbsent(s: string, pat: string)
    requires |pat| > 0
    requires forall i :: 0 <= i < |s| ==> !OccursAt(s, pat, i)
    ensures BeforeFirst(s, pat) == s
  {
  }

  /** Python's `a < b` on strings: lexicographic by code point, a proper prefix first. */
  predicate Less(a: string, b: string)
    decreases |a|
  {
    if a == [] then b != []
    else if b == [] then false
    else if a[0] != b[0] then a[0] < b[0]
    else Less(a[1..], b[1..])
  }

  lemma {:induction false} LessIrreflexive(a: string)
    ensures !Less(a, a)
    decreases |a|
  {
    if a != [] {
      LessIrreflexive(a[1..]);
    }
  }

  /** Any two different strings are ordered one way or the other. */
  lemma {:induction false} LessTotal(a: string, b: string)
    ensures a == b || Less(a, b) || Less(b, a)
    decreases |a|
  {
    if a != [] && b != [] && a[0] == b[0] {
      LessTotal(a[1..], b[1..]);
      if a[1..] == b[1..] {
        assert a == [a[0]] + a[1..] && b == [b[0]] + b[1..];
      }
    }
  }

  lemma {:induction false} LessTransitive(a: string, b: string, c: string)
    requires Less(a, b) && Less(b, c)
    ensures Less(a, c)
    decreases |a|
  {
    if a != [] && a[0] == b[0] && b[0] == c[0] {
      LessTransitive(a[1..], b[1..], c[1..]);
    }
  }

  function Digit(d: nat): (c: char)
    requires d < 10
    ensures '0' <= c <= '9'
  {
    ['0', '1', '2', '3', '4', '5', '6', '7', '8', '9'][d]
  }

  /** Python's `str(n)` for a natural number. */
  function NatToString(n: nat): (r: string)
    ensures |r| >= 1
    ensures forall i :: 0 <= i < |r| ==> '0' <= r[i] <= '9'
  {
    if n < 10 then [Digit(n)] else NatToString(n / 10) + [Digit(n % 10)]
  }

  /** The number a string of decimal digits denotes. */
  function DigitsValue(s: string): nat
    requires forall i :: 0 <= i < |s| ==> '0' <= s[i] <= '9'
  {
    if s == [] then 0 else 10 * DigitsValue(s[..|s| - 1]) + (s[|s| - 1] as int - '0' as int)
  }

  /** The rendering denotes the number rendered, so distinct numbers render differently. */
  lemma {:induction false} NatToStringValue(n: nat)
    ensures DigitsValue(NatToString(n)) == n
  {
    if n >= 10 {
      NatToStringValue(n / 10);
      var r := NatToString(n);
      assert r[..|r| - 1] == NatToString(n / 10);
    }
  }

  lemma NatToStringInjective(m: nat, n: nat)
    ensures NatToString(m) == NatToString(n) <==> m == n
  {
    NatToStringValue(m);
    NatToStringValue(n);
  }
}

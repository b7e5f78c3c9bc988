/**
 Literal string operations the resolvers are built from: prefix test, literal
 find-and-replace (all occurrences, and first occurrence), splitting at a
 pattern, and joining with a separator. Strings are `seq<char>`.
 */
module Text {

  /** `s` begins with `prefix` (Java's `String.startsWith`). */
  predicate StartsWith(s: string, prefix: string)
  {
    |prefix| <= |s| && s[..|prefix|] == prefix
  }

  /** `pat` occurs in `s` starting at index `i`. */
  predicate OccursAt(s: string, pat: string, i: int)
  {
    0 <= i && i + |pat| <= |s| && s[i..i + |pat|] == pat
  }

  /** `pat` occurs somewhere in `s`. */
  predicate Occurs(s: string, pat: string)
  {
    exists i :: 0 <= i <= |s| && OccursAt(s, pat, i)
  }

  /** An occurrence in the tail `s[1..]` is an occurrence in `s`, one index later. */
  lemma {:induction false} OccursInTail(s: string, pat: string, i: int)
    requires |s| > 0 && OccursAt(s[1..], pat, i)
    ensures OccursAt(s, pat, i + 1)
  {
    assert s[1..][i..i + |pat|] == s[i + 1..i + 1 + |pat|];
  }

  /**
   Replaces every occurrence of the non-empty `pat` in `s` by `rep`, scanning
   left to right and resuming after each replaced occurrence (the order in
   which `String.replaceAll` finds matches of a pattern without
   metacharacters). The text of `rep` is never scanned again.
   */
  function ReplaceAll(s: string, pat: string, rep: string): (r: string)
    requires |pat| > 0
    ensures !Occurs(s, pat) ==> r == s
    decreases |s|
  {
    if |s| < |pat| then s
    else if s[..|pat|] == pat then
      assert OccursAt(s, pat, 0);
      rep + ReplaceAll(s[|pat|..], pat, rep)
    else
      var rest := ReplaceAll(s[1..], pat, rep);
      assert !Occurs(s, pat) ==> !Occurs(s[1..], pat) by {
        if Occurs(s[1..], pat) {
          var i :| 0 <= i <= |s[1..]| && OccursAt(s[1..], pat, i);
          OccursInTail(s, pat, i);
        }
      }
      assert s == [s[0]] + s[1..];
      [s[0]] + rest
  }

  /** Replaces the first occurrence of the non-empty `pat` in `s` by `rep`, if any. */
  function ReplaceFirst(s: string, pat: string, rep: string): (r: string)
    requires |pat| > 0
    ensures !Occurs(s, pat) ==> r == s
    ensures OccursAt(s, pat, 0) ==> r == rep + s[|pat|..]
    decreases |s|
  {
    if |s| < |pat| then s
    else if s[..|pat|] == pat then
      assert OccursAt(s, pat, 0);
      rep + s[|pat|..]
    else
      var rest := ReplaceFirst(s[1..], pat, rep);
      assert !Occurs(s, pat) ==> !Occurs(s[1..], pat) by {
        if Occurs(s[1..], pat) {
          var i :| 0 <= i <= |s[1..]| && OccursAt(s[1..], pat, i);
          OccursInTail(s, pat, i);
        }
      }
      assert s == [s[0]] + s[1..];
      [s[0]] + rest
  }

  /**
   The pieces of `s` between the occurrences of the non-empty `pat` that
   `ReplaceAll` finds; there is always at least one piece, and the first
   piece is a prefix of `s`.
   */
  function Split(s: string, pat: string): (r: seq<string>)
    requires |pat| > 0
    ensures |r| >= 1
    ensures StartsWith(s, r[0])
    decreases |s|
  {
    if |s| < |pat| then [s]
    else if s[..|pat|] == pat then [[]] + Split(s[|pat|..], pat)
    else
      var rest := Split(s[1..], pat);
      [[s[0]] + rest[0]] + rest[1..]
  }

  /** Sum of the lengths of `lines`. */
  function TotalLength(lines: seq<string>): nat
  {
    if lines == [] then 0 else |lines[0]| + TotalLength(lines[1..])
  }

  /** Number of separators placed between `n` joined pieces. */
  function Gaps(n: nat): nat
  {
    if n == 0 then 0 else n - 1
  }

  /**
   `lines` with `sep` between each neighbouring pair (the behaviour of
   `Collectors.joining(sep)`): nothing for no lines, the line itself for one.
   */
  function Join(lines: seq<string>, sep: string): (r: string)
    ensures |lines| == 0 ==> r == []
    ensures |lines| == 1 ==> r == lines[0]
    ensures |r| == TotalLength(lines) + Gaps(|lines|) * |sep|
  {
    if |lines| == 0 then []
    else if |lines| == 1 then lines[0]
    else
      var rest := Join(lines[1..], sep);
      assert Gaps(|lines|) * |sep| == |sep| + Gaps(|lines| - 1) * |sep|;
      lines[0] + sep + rest
  }

  /** Adding text before the first line adds it before the joined text. */
  lemma {:induction false} JoinPrefixFirst(x: string, lines: seq<string>, sep: string)
    requires |lines| >= 1
    ensures Join([x + lines[0]] + lines[1..], sep) == x + Join(lines, sep)
  {
    var ls := [x + lines[0]] + lines[1..];
    if |lines| > 1 {
      assert ls[1..] == lines[1..];
    }
  }

  /** Joining one more line appends the separator and that line. */
  lemma {:induction false} JoinSnoc(lines: seq<string>, x: string, sep: string)
    requires |lines| >= 1
    ensures Join(lines + [x], sep) == Join(lines, sep) + sep + x
    decreases |lines|
  {
    if |lines| == 1 {
      assert (lines + [x])[1..] == [x];
    } else {
      assert (lines + [x])[1..] == lines[1..] + [x];
      JoinSnoc(lines[1..], x, sep);
    }
  }

  /** Splitting at `pat` and joining with `pat` gives back the original string. */
  lemma {:induction false} JoinSplit(s: string, pat: string)
    requires |pat| > 0
    ensures Join(Split(s, pat), pat) == s
    decreases |s|
  {
    if |s| < |pat| {
    } else if s[..|pat|] == pat {
      JoinSplit(s[|pat|..], pat);
      var rest := Split(s[|pat|..], pat);
      assert ([[]] + rest)[1..] == rest;
      assert s == pat + s[|pat|..];
    } else {
      JoinSplit(s[1..], pat);
      var rest := Split(s[1..], pat);
      JoinPrefixFirst([s[0]], rest, pat);
      assert s == [s[0]] + s[1..];
    }
  }

  /** Replacing every occurrence is joining the pieces with the replacement. */
  lemma {:induction false} ReplaceAllIsJoinOfSplit(s: string, pat: string, rep: string)
    requires |pat| > 0
    ensures ReplaceAll(s, pat, rep) == Join(Split(s, pat), rep)
    decreases |s|
  {
    if |s| < |pat| {
    } else if s[..|pat|] == pat {
      ReplaceAllIsJoinOfSplit(s[|pat|..], pat, rep);
      var rest := Split(s[|pat|..], pat);
      assert ([[]] + rest)[1..] == rest;
    } else {
      ReplaceAllIsJoinOfSplit(s[1..], pat, rep);
      var rest := Split(s[1..], pat);
      JoinPrefixFirst([s[0]], rest, rep);
    }
  }

  /**
   A pattern-free string stays pattern-free after one character is put in
   front, when the result is a prefix of a string that does not begin with
   the pattern.
   */
  lemma ConsFree(c: char, t: string, s: string, pat: string)
    requires |pat| > 0 && StartsWith(s, [c] + t)
    requires !OccursAt(s, pat, 0) && !Occurs(t, pat)
    ensures !Occurs([c] + t, pat)
  {
    var piece := [c] + t;
    if Occurs(piece, pat) {
      var i :| 0 <= i <= |piece| && OccursAt(piece, pat, i);
      if i == 0 {
        assert false;
      } else {
        assert piece[i..i + |pat|] == t[i - 1..i - 1 + |pat|];
        assert OccursAt(t, pat, i - 1);
        assert false;
      }
    }
  }

  /** No piece of a split contains the pattern. */
  lemma {:induction false} SplitPiecesFree(s: string, pat: string, k: nat)
    requires |pat| > 0 && k < |Split(s, pat)|
    ensures !Occurs(Split(s, pat)[k], pat)
    decreases |s|
  {
    if |s| < |pat| {
      assert Split(s, pat) == [s];
    } else if s[..|pat|] == pat {
      if k > 0 {
        SplitPiecesFree(s[|pat|..], pat, k - 1);
      } else {
        assert Split(s, pat)[0] == [];
      }
    } else {
      var rest := Split(s[1..], pat);
      SplitPiecesFree(s[1..], pat, k);
      if k == 0 {
        assert StartsWith(s, [s[0]] + rest[0]) by {
          assert s == [s[0]] + s[1..];
        }
        ConsFree(s[0], rest[0], s, pat);
      }
    }
  }

  /** Replacing the pattern by itself changes nothing. */
  lemma {:induction false} ReplaceAllSelf(s: string, pat: string)
    requires |pat| > 0
    ensures ReplaceAll(s, pat, pat) == s
  {
    ReplaceAllIsJoinOfSplit(s, pat, pat);
    JoinSplit(s, pat);
  }

  /** The pattern at the very front is replaced and the scan resumes after it. */
  lemma {:induction false} ReplaceAllLeading(pat: string, s: string, rep: string)
    requires |pat| > 0
    ensures ReplaceAll(pat + s, pat, rep) == rep + ReplaceAll(s, pat, rep)
  {
    var t := pat + s;
    assert t[..|pat|] == pat;
    assert t[|pat|..] == s;
  }

  /**
   Text in front that holds no copy of the pattern's first character is
   copied through unchanged.
   */
  lemma {:induction false} ReplaceAllPrefixFree(a: string, s: string, pat: string, rep: string)
    requires |pat| > 0 && forall i :: 0 <= i < |a| ==> a[i] != pat[0]
    ensures ReplaceAll(a + s, pat, rep) == a + ReplaceAll(s, pat, rep)
    decreases |a|
  {
    if a != [] {
      var t := a + s;
      if |t| >= |pat| {
        calc {
          ReplaceAll(t, pat, rep);
          == { ReplaceAllStep(t, pat, rep, 0); }
          [t[0]] + ReplaceAll(t[1..], pat, rep);
          == { assert t[1..] == a[1..] + s; }
          [a[0]] + ReplaceAll(a[1..] + s, pat, rep);
          == { ReplaceAllPrefixFree(a[1..], s, pat, rep); }
          [a[0]] + (a[1..] + ReplaceAll(s, pat, rep));
          == { assert a == [a[0]] + a[1..]; }
          a + ReplaceAll(s, pat, rep);
        }
      } else {
        assert ReplaceAll(t, pat, rep) == t;
        assert ReplaceAll(s, pat, rep) == s;
      }
    } else {
      assert a + s == s;
    }
  }

  /** Where the front of `s` differs from the pattern, the first character is copied through. */
  lemma {:induction false} ReplaceAllStep(s: string, pat: string, rep: string, j: nat)
    requires j < |pat| <= |s| && s[j] != pat[j]
    ensures ReplaceAll(s, pat, rep) == [s[0]] + ReplaceAll(s[1..], pat, rep)
  {
    assert s[..|pat|][j] != pat[j];
  }

  /**
   Text copied in by a replacement is not scanned again: a string that is
   exactly the pattern becomes the replacement, whatever the replacement holds.
   */
  lemma {:induction false} ReplaceAllNoSecondPass(pat: string, rep: string)
    requires |pat| > 0
    ensures ReplaceAll(pat, pat, rep) == rep
  {
    ReplaceAllLeading(pat, [], rep);
    assert pat + [] == pat;
  }
}

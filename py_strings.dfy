/** Python's `str.replace(old, new)` for a non-empty `old` (here `pat` and `rep`), and the split and
    join that describe it: the text is cut at the non-overlapping occurrences
    of `pat`, found left to right, and glued back with `rep`. */
module PyStrings {

  /** `p` occurs in `s` starting at index `i`. */
  predicate OccursAt(s: string, p: string, i: int)
  {
    0 <= i && i + |p| <= |s| && s[i..i + |p|] == p
  }

  /** `p in s` */
  predicate Contains(s: string, p: string)
  {
    exists i :: 0 <= i <= |s| - |p| && OccursAt(s, p, i)
  }

  /** `s.replace(pat, rep)`: scan left to right; at each occurrence of `pat`
      emit `rep` and resume after it, otherwise copy one character. */
  function Replace(s: string, pat: string, rep: string): string
    requires |pat| > 0
    decreases |s|
  {
    if |s| < |pat| then s
    else if s[..|pat|] == pat then rep + Replace(s[|pat|..], pat, rep)
    else [s[0]] + Replace(s[1..], pat, rep)
  }

  /** `s.split(sep)`: the pieces between the occurrences of `sep`. The first
      piece is a prefix of `s`. */
  function Split(s: string, sep: string): (r: seq<string>)
    requires |sep| > 0
    ensures |r| >= 1 && r[0] <= s
    decreases |s|
  {
    if |s| < |sep| then [s]
    else if s[..|sep|] == sep then [""] + Split(s[|sep|..], sep)
    else
      var rest := Split(s[1..], sep);
      [[s[0]] + rest[0]] + rest[1..]
  }

  /** `sep.join(pieces)` */
  function Join(pieces: seq<string>, sep: string): string
    decreases |pieces|
  {
    if |pieces| == 0 then ""
    else if |pieces| == 1 then pieces[0]
    else pieces[0] + sep + Join(pieces[1..], sep)
  }

  /** Extending the first piece extends the joined text by the same character. */
  lemma JoinConsFirst(c: char, pieces: seq<string>, sep: string)
    requires |pieces| >= 1
    ensures Join([[c] + pieces[0]] + pieces[1..], sep) == [c] + Join(pieces, sep)
  {
  }

  /** Splitting and joining with the same separator gives the text back. */
  lemma {:induction false} SplitJoin(s: string, sep: string)
    requires |sep| > 0
    ensures Join(Split(s, sep), sep) == s
    decreases |s|
  {
    if |s| < |sep| {
    } else if s[..|sep|] == sep {
      var t := s[|sep|..];
      SplitJoin(t, sep);
      var ps := [""] + Split(t, sep);
      assert ps[1..] == Split(t, sep);
      assert s == sep + t;
    } else {
      var rest := Split(s[1..], sep);
      SplitJoin(s[1..], sep);
      JoinConsFirst(s[0], rest, sep);
      assert s == [s[0]] + s[1..];
    }
  }

  /** No piece of a split contains the separator: every occurrence was cut. */
  lemma {:induction false} SplitPiecesAreFree(s: string, sep: string)
    requires |sep| > 0
    ensures forall k :: 0 <= k < |Split(s, sep)| ==> !Contains(Split(s, sep)[k], sep)
    decreases |s|
  {
    var r := Split(s, sep);
    if |s| < |sep| {
      assert !Contains(s, sep);
    } else if s[..|sep|] == sep {
      SplitPiecesAreFree(s[|sep|..], sep);
      assert !Contains("", sep);
      assert forall k :: 1 <= k < |r| ==> r[k] == Split(s[|sep|..], sep)[k - 1];
    } else {
      var rest := Split(s[1..], sep);
      SplitPiecesAreFree(s[1..], sep);
      assert forall k :: 1 <= k < |r| ==> r[k] == rest[k];
      var head := [s[0]] + rest[0];
      assert head <= s by { assert rest[0] <= s[1..]; }
      forall i | OccursAt(head, sep, i) ensures false {
        if i > 0 {
          assert head[i..i + |sep|] == rest[0][i - 1..i - 1 + |sep|];
          assert OccursAt(rest[0], sep, i - 1);
        }
      }
    }
  }

  /** `str.replace` is the split joined with the replacement. */
  lemma {:induction false} ReplaceIsSplitJoin(s: string, pat: string, rep: string)
    requires |pat| > 0
    ensures Replace(s, pat, rep) == Join(Split(s, pat), rep)
    decreases |s|
  {
    if |s| < |pat| {
    } else if s[..|pat|] == pat {
      var t := s[|pat|..];
      ReplaceIsSplitJoin(t, pat, rep);
      var ps := [""] + Split(t, pat);
      assert ps[1..] == Split(t, pat);
    } else {
      ReplaceIsSplitJoin(s[1..], pat, rep);
      JoinConsFirst(s[0], Split(s[1..], pat), rep);
    }
  }

  /** Every occurrence of `pat` is replaced: the input is the pieces joined
      with `pat`, the output the same pieces joined with `rep`, and no piece
      holds `pat` any more. */
  lemma ReplaceEveryOccurrence(s: string, pat: string, rep: string)
    requires |pat| > 0
    ensures var pieces := Split(s, pat);
      && s == Join(pieces, pat)
      && Replace(s, pat, rep) == Join(pieces, rep)
      && forall k :: 0 <= k < |pieces| ==> !Contains(pieces[k], pat)
  {
    SplitJoin(s, pat);
    ReplaceIsSplitJoin(s, pat, rep);
    SplitPiecesAreFree(s, pat);
  }

  /** A text without `pat` is left alone. */
  lemma {:induction false} ReplaceAbsent(s: string, pat: string, rep: string)
    requires |pat| > 0 && !Contains(s, pat)
    ensures Replace(s, pat, rep) == s
    decreases |s|
  {
    if |s| < |pat| {
    } else {
      assert !OccursAt(s, pat, 0);
      forall i | OccursAt(s[1..], pat, i) ensures OccursAt(s, pat, i + 1) {
        assert s[1..][i..i + |pat|] == s[i + 1..i + 1 + |pat|];
      }
      ReplaceAbsent(s[1..], pat, rep);
      assert s == [s[0]] + s[1..];
    }
  }

  /** A text that starts with the pattern, followed by a rest without it,
      has just that leading occurrence replaced. */
  lemma ReplaceLeading(pat: string, rest: string, rep: string)
    requires |pat| > 0 && !Contains(rest, pat)
    ensures Replace(pat + rest, pat, rep) == rep + rest
  {
    var s := pat + rest;
    assert s[..|pat|] == pat && s[|pat|..] == rest;
    ReplaceAbsent(rest, pat, rep);
  }

  /** Replacing a text by itself changes nothing. */
  lemma ReplaceBySelf(s: string, pat: string)
    requires |pat| > 0
    ensures Replace(s, pat, pat) == s
  {
    SplitJoin(s, pat);
    ReplaceIsSplitJoin(s, pat, pat);
  }
}

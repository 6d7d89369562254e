/** The string operations of Go's strings package that the program relies on.
    Letter case is modelled for ASCII. */
module Text {
  predicate Free(s: string, c: char) {
    forall i :: 0 <= i < |s| ==> s[i] != c
  }

  /** strings.Split(s, c) for a one-character separator. */
  function Split(s: string, c: char): (parts: seq<string>)
    ensures |parts| >= 1
  {
    if s == "" then [""]
    else
      var rest := Split(s[1..], c);
      if s[0] == c then [""] + rest else Glue(s[0], rest)
  }

  /** Puts one more character in front of the first part. */
  function Glue(a: char, parts: seq<string>): (r: seq<string>)
    requires |parts| >= 1
    ensures |r| == |parts| && r[0] == [a] + parts[0] && r[1..] == parts[1..]
  {
    [[a] + parts[0]] + parts[1..]
  }

  /** strings.Join(parts, sep). */
  function Join(parts: seq<string>, sep: string): string {
    if |parts| == 0 then ""
    else if |parts| == 1 then parts[0]
    else parts[0] + sep + Join(parts[1..], sep)
  }

  lemma FreeCons(s: string, c: char)
    requires s != ""
    ensures Free(s, c) <==> s[0] != c && Free(s[1..], c)
  {
    assert forall i :: 0 < i < |s| ==> s[i] == s[1..][i - 1];
  }

  lemma {:induction false} JoinSplit(s: string, c: char)
    ensures Join(Split(s, c), [c]) == s
  {
    if s != "" {
      JoinSplit(s[1..], c);
      var rest := Split(s[1..], c);
      if s[0] == c {
        assert ([""] + rest)[1..] == rest;
        assert s == [c] + s[1..];
      } else {
        assert s == [s[0]] + s[1..];
        if |rest| > 1 {
          assert [s[0]] + rest[0] + [c] + Join(rest[1..], [c]) == [s[0]] + (rest[0] + [c] + Join(rest[1..], [c]));
        }
      }
    }
  }

  lemma {:induction false} SplitParts(s: string, c: char)
    ensures forall i :: 0 <= i < |Split(s, c)| ==> Free(Split(s, c)[i], c)
  {
    if s != "" {
      SplitParts(s[1..], c);
      var rest := Split(s[1..], c);
      if s[0] != c {
        var head := [s[0]] + rest[0];
        assert head[1..] == rest[0];
        FreeCons(head, c);
        forall i | 0 <= i < |Split(s, c)| ensures Free(Split(s, c)[i], c) {
          if i > 0 { assert Split(s, c)[i] == Split(s, c)[1..][i - 1] == rest[i]; }
        }
      }
    }
  }

  /** Split is the inverse of Join that produces separator-free parts. */
  lemma SplitInvertsJoin(s: string, c: char)
    ensures Join(Split(s, c), [c]) == s
    ensures forall i :: 0 <= i < |Split(s, c)| ==> Free(Split(s, c)[i], c)
  {
    JoinSplit(s, c);
    SplitParts(s, c);
  }

  /** A separator between two texts splits them independently. */
  lemma {:induction false} SplitConcat(x: string, y: string, c: char)
    ensures Split(x + [c] + y, c) == Split(x, c) + Split(y, c)
  {
    var s := x + [c] + y;
    if x == "" {
      assert s[1..] == y;
    } else {
      assert s[0] == x[0] && s[1..] == x[1..] + [c] + y;
      SplitConcat(x[1..], y, c);
      SplitStep(x[0], Split(x[1..], c), Split(y, c), c);
    }
  }

  lemma SplitStep(a: char, xs: seq<string>, ys: seq<string>, c: char)
    requires |xs| >= 1
    ensures Glue(a, xs + ys) == Glue(a, xs) + ys
    ensures [""] + (xs + ys) == ([""] + xs) + ys
  {
    assert (xs + ys)[1..] == xs[1..] + ys;
  }

  lemma {:induction false} SplitFree(s: string, c: char)
    ensures Free(s, c) <==> |Split(s, c)| == 1
    ensures Free(s, c) ==> Split(s, c) == [s]
  {
    if s != "" {
      SplitFree(s[1..], c);
      FreeCons(s, c);
      assert s == [s[0]] + s[1..];
    }
  }

  function LowerChar(c: char): char {
    if 'A' <= c <= 'Z' then c - 'A' + 'a' else c
  }

  /** strings.ToLower on ASCII text. */
  function Lower(s: string): (r: string)
    ensures |r| == |s|
  {
    seq(|s|, i requires 0 <= i < |s| => LowerChar(s[i]))
  }

  const UPPERS := "ABCDEFGHIJKLMNOPQRSTUVWXYZ"
  const LOWERS := "abcdefghijklmnopqrstuvwxyz"

  /** Equal characters, or the two cases of one letter. */
  predicate SameLetter(a: char, b: char) {
    || a == b
    || exists i | 0 <= i < 26 :: (a == UPPERS[i] && b == LOWERS[i]) || (a == LOWERS[i] && b == UPPERS[i])
  }

  lemma Alphabet(i: nat)
    requires i < 26
    ensures UPPERS[i] == 'A' + i as char && LOWERS[i] == 'a' + i as char
  {
  }

  /** Lower-casing sends each capital to its small letter and leaves everything
      else alone. */
  lemma LowerLetters()
    ensures Lower("ABCDEFGHIJKLMNOPQRSTUVWXYZ") == "abcdefghijklmnopqrstuvwxyz"
    ensures forall c :: c !in "ABCDEFGHIJKLMNOPQRSTUVWXYZ" ==> LowerChar(c) == c
  {
    forall c: char | 'A' <= c <= 'Z' ensures c in UPPERS {
      Alphabet((c - 'A') as nat);
    }
    forall i: nat | i < 26 ensures Lower(UPPERS)[i] == LOWERS[i] {
      Alphabet(i);
    }
    assert Lower(UPPERS) == LOWERS;
  }

  /** Two characters are the same letter exactly when they lower-case alike. */
  lemma SameLetterLowers(a: char, b: char)
    ensures SameLetter(a, b) <==> LowerChar(a) == LowerChar(b)
  {
    forall i: nat | i < 26
      ensures UPPERS[i] == 'A' + i as char && LOWERS[i] == 'a' + i as char
    {
      Alphabet(i);
    }
    if 'A' <= a <= 'Z' {
      assert UPPERS[(a - 'A') as nat] == a && LOWERS[(a - 'A') as nat] == LowerChar(a);
    }
    if 'A' <= b <= 'Z' {
      assert UPPERS[(b - 'A') as nat] == b && LOWERS[(b - 'A') as nat] == LowerChar(b);
    }
  }

  /** Two texts agree but for the case of letters. */
  predicate SameText(x: string, y: string) {
    |x| == |y| && forall i :: 0 <= i < |x| ==> SameLetter(x[i], y[i])
  }

  lemma SameTextLowers(x: string, y: string)
    ensures SameText(x, y) <==> Lower(x) == Lower(y)
  {
    if |x| == |y| {
      forall i | 0 <= i < |x| ensures SameLetter(x[i], y[i]) <==> Lower(x)[i] == Lower(y)[i] {
        SameLetterLowers(x[i], y[i]);
      }
    }
  }

  predicate OccursAt(s: string, k: string, i: int) {
    0 <= i && i + |k| <= |s| && s[i..i + |k|] == k
  }

  /** strings.Contains(s, k). */
  predicate Contains(s: string, k: string) {
    exists i | 0 <= i <= |s| :: OccursAt(s, k, i)
  }
}

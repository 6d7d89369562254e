/** The keyword gate of internal/filter/filter.go. */
module Filter {
  import opened Core
  import opened Text

  function Haystack(s: Signal): string {
    Lower(s.title + " " + s.body + " " + Join(s.tags, " ") + " " + Join(s.topComments, " "))
  }

  predicate AnyIn(hay: string, keywords: seq<string>) {
    |keywords| > 0 &&
    ((keywords[0] != "" && Contains(hay, Lower(keywords[0]))) || AnyIn(hay, keywords[1..]))
  }

  /** Match; `expr` is accepted and ignored, as in the original. */
  predicate Match(s: Signal, keywords: seq<string>, expr: string) {
    |keywords| == 0 || AnyIn(Haystack(s), keywords)
  }

  /** Case-insensitive occurrence of a keyword in one text. */
  predicate Found(part: string, keyword: string) {
    Contains(Lower(part), Lower(keyword))
  }

  predicate FoundInSome(parts: seq<string>, keyword: string) {
    exists i | 0 <= i < |parts| :: Found(parts[i], keyword)
  }

  predicate FoundInSignal(s: Signal, keyword: string) {
    || Found(s.title, keyword)
    || Found(s.body, keyword)
    || FoundInSome(s.tags, keyword)
    || FoundInSome(s.topComments, keyword)
  }

  lemma {:induction false} AnyInMeans(hay: string, keywords: seq<string>)
    ensures AnyIn(hay, keywords) <==> exists k :: k in keywords && k != "" && Contains(hay, Lower(k))
  {
    if |keywords| > 0 {
      AnyInMeans(hay, keywords[1..]);
      assert keywords == [keywords[0]] + keywords[1..];
    }
  }

  /** The gate is open without keywords; otherwise it opens for any non-empty
      keyword found anywhere in the joined text. */
  lemma MatchMeans(s: Signal, keywords: seq<string>, expr: string)
    ensures Match(s, keywords, expr) <==>
      keywords == [] || exists k :: k in keywords && k != "" && Contains(Haystack(s), Lower(k))
  {
    AnyInMeans(Haystack(s), keywords);
  }

  lemma LowerConcat(x: string, y: string)
    ensures Lower(x + y) == Lower(x) + Lower(y)
  {
  }

  lemma OccursLetterByLetter(s: string, k: string, i: int)
    ensures OccursAt(s, k, i) <==>
      0 <= i && i + |k| <= |s| && forall j :: i <= j < i + |k| ==> s[j] == k[j - i]
  {
    if 0 <= i && i + |k| <= |s| {
      var part := s[i..i + |k|];
      assert forall j :: i <= j < i + |k| ==> s[j] == part[j - i];
      if forall j :: i <= j < i + |k| ==> s[j] == k[j - i] {
        forall m | 0 <= m < |k| ensures part[m] == k[m] {
          assert s[i + m] == k[i + m - i];
        }
        assert part == k;
      }
    }
  }

  lemma OccursInLonger(before: string, x: string, after: string, k: string)
    requires Contains(x, k)
    ensures Contains(before + x + after, k)
  {
    var i :| 0 <= i <= |x| && OccursAt(x, k, i);
    OccursLetterByLetter(x, k, i);
    OccursLetterByLetter(before + x + after, k, |before| + i);
  }

  lemma OccursBesideSpace(x: string, y: string, k: string)
    requires k != "" && Free(k, ' ') && Contains(x + " " + y, k)
    ensures Contains(x, k) || Contains(y, k)
  {
    var s := x + " " + y;
    var i :| 0 <= i <= |s| && OccursAt(s, k, i);
    OccursLetterByLetter(s, k, i);
    if i + |k| <= |x| {
      OccursLetterByLetter(x, k, i);
    } else {
      assert s[|x|] == ' ';
      assert i > |x|;
      OccursLetterByLetter(y, k, i - |x| - 1);
    }
  }

  /** A space-free needle in two texts joined by a space lies in one of them. */
  lemma ContainsAcrossSpace(x: string, y: string, k: string)
    requires k != "" && Free(k, ' ')
    ensures Contains(x + " " + y, k) <==> Contains(x, k) || Contains(y, k)
  {
    var s := x + " " + y;
    assert s == "" + x + (" " + y) && s == (x + " ") + y + "";
    if Contains(x, k) {
      OccursInLonger("", x, " " + y, k);
    }
    if Contains(y, k) {
      OccursInLonger(x + " ", y, "", k);
    }
    if Contains(s, k) {
      OccursBesideSpace(x, y, k);
    }
  }

  lemma LowerSpaceFree(k: string)
    requires Free(k, ' ')
    ensures Free(Lower(k), ' ')
  {
    forall i | 0 <= i < |k| ensures Lower(k)[i] != ' ' {
      assert k[i] != ' ';
    }
  }

  lemma FoundAcrossSpace(x: string, y: string, k: string)
    requires k != "" && Free(k, ' ')
    ensures Found(x + " " + y, k) <==> Found(x, k) || Found(y, k)
  {
    LowerConcat(x + " ", y);
    LowerConcat(x, " ");
    assert Lower(" ") == " ";
    assert Lower(x + " " + y) == Lower(x) + " " + Lower(y);
    LowerSpaceFree(k);
    ContainsAcrossSpace(Lower(x), Lower(y), Lower(k));
  }

  lemma {:induction false} FoundInJoin(parts: seq<string>, k: string)
    requires k != "" && Free(k, ' ')
    ensures Found(Join(parts, " "), k) <==> FoundInSome(parts, k)
  {
    if |parts| > 1 {
      FoundInJoin(parts[1..], k);
      FoundAcrossSpace(parts[0], Join(parts[1..], " "), k);
      if FoundInSome(parts[1..], k) {
        var i :| 0 <= i < |parts[1..]| && Found(parts[1..][i], k);
        assert Found(parts[i + 1], k);
      }
      if FoundInSome(parts, k) {
        var i :| 0 <= i < |parts| && Found(parts[i], k);
        if i > 0 { assert Found(parts[1..][i - 1], k); }
      }
    } else if |parts| == 1 {
      assert Found(parts[0], k) <==> FoundInSome(parts, k);
    }
  }

  /** A space-free keyword passes the gate only from inside the title, the body,
      one tag or one comment: no match spans a join. */
  lemma SpaceFreeMatchIsPerPart(s: Signal, k: string, expr: string)
    requires k != "" && Free(k, ' ')
    ensures Match(s, [k], expr) <==> FoundInSignal(s, k)
  {
    MatchMeans(s, [k], expr);
    assert k in [k];
    var tags, comments := Join(s.tags, " "), Join(s.topComments, " ");
    FoundAcrossSpace(s.title + " " + s.body + " " + tags, comments, k);
    FoundAcrossSpace(s.title + " " + s.body, tags, k);
    FoundAcrossSpace(s.title, s.body, k);
    FoundInJoin(s.tags, k);
    FoundInJoin(s.topComments, k);
  }

  /** Some segment of the text is the keyword but for the case of letters. */
  predicate IsFolded(text: string, k: string, x: string, mid: string, y: string) {
    text == x + mid + y && SameText(mid, k)
  }

  lemma FoundIsFolded(text: string, k: string)
    ensures Found(text, k) <==> exists x, mid, y :: IsFolded(text, k, x, mid, y)
  {
    if Found(text, k) {
      var at :| 0 <= at <= |Lower(text)| && OccursAt(Lower(text), Lower(k), at);
      var mid := text[at..at + |k|];
      assert Lower(text)[at..at + |k|] == Lower(mid);
      SameTextLowers(mid, k);
      assert IsFolded(text, k, text[..at], mid, text[at + |k|..]);
    }
    if x, mid, y :| IsFolded(text, k, x, mid, y) {
      SameTextLowers(mid, k);
      LowerConcat(x, mid);
      LowerConcat(x + mid, y);
      assert OccursAt(Lower(text), Lower(k), |x|);
    }
  }

  lemma FoundInPart(s: Signal, k: string)
    ensures FoundInSignal(s, k) <==>
      exists part :: Found(part, k) && (part == s.title || part == s.body || part in s.tags || part in s.topComments)
  {
    if part :| Found(part, k) && (part in s.tags || part in s.topComments) {
      if part in s.tags {
        var i :| 0 <= i < |s.tags| && s.tags[i] == part;
        assert Found(s.tags[i], k);
      } else {
        var i :| 0 <= i < |s.topComments| && s.topComments[i] == part;
        assert Found(s.topComments[i], k);
      }
    }
  }

  /** Letter case aside: a space-free keyword passes the gate exactly when it
      occurs, letter for letter and in any case, inside the title, the body, one
      tag or one comment. */
  lemma MatchFoldsCase(s: Signal, k: string, expr: string)
    requires k != "" && Free(k, ' ')
    ensures Match(s, [k], expr) <==> exists part, x, mid, y ::
      IsFolded(part, k, x, mid, y) && (part == s.title || part == s.body || part in s.tags || part in s.topComments)
  {
    SpaceFreeMatchIsPerPart(s, k, expr);
    FoundInPart(s, k);
    forall part ensures Found(part, k) <==> exists x, mid, y :: IsFolded(part, k, x, mid, y) {
      FoundIsFolded(part, k);
    }
  }

  lemma SameTextConcat(x: string, y: string, u: string, v: string)
    requires SameText(x, u) && SameText(y, v)
    ensures SameText(x + y, u + v)
  {
  }

  predicate SameTexts(xs: seq<string>, ys: seq<string>) {
    |xs| == |ys| && forall i :: 0 <= i < |xs| ==> SameText(xs[i], ys[i])
  }

  lemma {:induction false} SameTextJoin(xs: seq<string>, ys: seq<string>)
    requires SameTexts(xs, ys)
    ensures SameText(Join(xs, " "), Join(ys, " "))
  {
    if |xs| > 1 {
      SameTextJoin(xs[1..], ys[1..]);
      SameTextConcat(xs[0], " ", ys[0], " ");
      SameTextConcat(xs[0] + " ", Join(xs[1..], " "), ys[0] + " ", Join(ys[1..], " "));
    }
  }

  /** Changing the case of letters, in the signal's texts or in the keywords,
      never changes the gate. */
  lemma CaseNeverMatters(s: Signal, u: Signal, keywords: seq<string>, others: seq<string>, expr: string)
    requires SameText(s.title, u.title) && SameText(s.body, u.body)
    requires SameTexts(s.tags, u.tags) && SameTexts(s.topComments, u.topComments) && SameTexts(keywords, others)
    ensures Match(s, keywords, expr) <==> Match(u, others, expr)
  {
    var a, b := s.title + " " + s.body, u.title + " " + u.body;
    SameTextConcat(s.title, " ", u.title, " ");
    SameTextConcat(s.title + " ", s.body, u.title + " ", u.body);
    SameTextJoin(s.tags, u.tags);
    SameTextJoin(s.topComments, u.topComments);
    SameTextConcat(a, " ", b, " ");
    SameTextConcat(a + " ", Join(s.tags, " "), b + " ", Join(u.tags, " "));
    var c, d := a + " " + Join(s.tags, " "), b + " " + Join(u.tags, " ");
    SameTextConcat(c, " ", d, " ");
    SameTextConcat(c + " ", Join(s.topComments, " "), d + " ", Join(u.topComments, " "));
    SameTextLowers(c + " " + Join(s.topComments, " "), d + " " + Join(u.topComments, " "));
    AnyInFolds(Haystack(s), keywords, others);
  }

  lemma {:induction false} AnyInFolds(hay: string, keywords: seq<string>, others: seq<string>)
    requires SameTexts(keywords, others)
    ensures AnyIn(hay, keywords) <==> AnyIn(hay, others)
  {
    if |keywords| > 0 {
      SameTextLowers(keywords[0], others[0]);
      AnyInFolds(hay, keywords[1..], others[1..]);
    }
  }

  /** A keyword list passes exactly when it is empty or one of its entries
      passes on its own. */
  lemma MatchIsAnyKeyword(s: Signal, keywords: seq<string>, expr: string)
    ensures Match(s, keywords, expr) <==>
      keywords == [] || exists k :: k in keywords && k != "" && Match(s, [k], expr)
  {
    MatchMeans(s, keywords, expr);
    forall k | k in keywords
      ensures Match(s, [k], expr) <==> k != "" && Contains(Haystack(s), Lower(k))
    {
      MatchMeans(s, [k], expr);
      assert k in [k];
    }
  }

  lemma FoundNeedsRoom(part: string, k: string)
    requires |part| < |k|
    ensures !Found(part, k)
  {
  }

  /** A keyword with a space, split there into a title and a body, matches their
      join though it occurs in neither. */
  lemma SpacedKeywordSpans(k: string, at: nat) returns (s: Signal)
    requires at < |k| && k[at] == ' '
    ensures Match(s, [k], "") && !FoundInSignal(s, k)
  {
    var title, body := k[..at], k[at + 1..];
    s := Signal("hn", "1", title, "", "", "", body, [], [], 0, 0, None, 0, false);
    assert k == title + " " + body;
    var text := title + " " + body + " " + "" + " " + "";
    assert text == k + "  ";
    LowerConcat(k, "  ");
    assert Haystack(s)[0..|k|] == Lower(k);
    assert OccursAt(Haystack(s), Lower(k), 0);
    MatchMeans(s, [k], "");
    assert k in [k];
    FoundNeedsRoom(title, k);
    FoundNeedsRoom(body, k);
  }

  /** Whether the join matters is decided by the keyword alone: searching the
      joined text is searching each part, for every signal, exactly when the
      keyword holds no space. */
  lemma PerPartExactly(k: string)
    requires k != ""
    ensures Free(k, ' ') <==> forall s: Signal :: Match(s, [k], "") <==> FoundInSignal(s, k)
  {
    if Free(k, ' ') {
      forall s: Signal ensures Match(s, [k], "") <==> FoundInSignal(s, k) {
        SpaceFreeMatchIsPerPart(s, k, "");
      }
    } else {
      var at :| 0 <= at < |k| && k[at] == ' ';
      var s := SpacedKeywordSpans(k, at);
    }
  }
}

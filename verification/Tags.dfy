/** normalizeTags of internal/sources/lobsters.go. */
module Tags {
  import opened Text
  import opened Dedupe

  const MAX_TAGS := 12

  predicate Space(c: char) { c == ' ' || c == '\t' || c == '\n' || c == '\r' || c == 11 as char || c == 12 as char }

  function TrimLeft(s: string): string {
    if s != "" && Space(s[0]) then TrimLeft(s[1..]) else s
  }

  function TrimRight(s: string): string {
    if s != "" && Space(s[|s| - 1]) then TrimRight(s[..|s| - 1]) else s
  }

  /** strings.TrimSpace on ASCII text. */
  function Trim(s: string): string { TrimRight(TrimLeft(s)) }

  function Normal(t: string): string { Lower(Trim(t)) }

  function Normals(tags: seq<string>): seq<string> {
    seq(|tags|, i requires 0 <= i < |tags| => Normal(tags[i]))
  }

  /** Trim and lower-case, drop blanks, keep first occurrences, take twelve. */
  function NormalTags(tags: seq<string>): seq<string> {
    var all := Distinct(Normals(tags));
    if |all| <= MAX_TAGS then all else all[..MAX_TAGS]
  }

  /** normalizeTags, with its early break at twelve. */
  method NormalizeTags(tags: seq<string>) returns (out: seq<string>)
    ensures out == NormalTags(tags)
  {
    out := [];
    var seen: set<string> := {};
    ghost var ids := Normals(tags);
    for i := 0 to |tags|
      invariant out == Distinct(ids[..i]) && |out| < MAX_TAGS
      invariant forall x :: x in seen <==> x in ids[..i] && x != ""
    {
      var t := Lower(Trim(tags[i]));
      DistinctAdd(ids[..i], t);
      assert ids[..i] + [t] == ids[..i + 1];
      if t == "" || t in seen {
        continue;
      }
      seen := seen + {t};
      out := out + [t];
      if |out| == MAX_TAGS {
        DistinctGrows(ids, i + 1);
        return;
      }
    }
    assert ids[..|tags|] == ids;
  }

  lemma {:induction false} TrimLeftEnds(s: string)
    ensures TrimLeft(s) != "" ==> !Space(TrimLeft(s)[0])
  {
    if s != "" && Space(s[0]) { TrimLeftEnds(s[1..]); }
  }

  lemma {:induction false} TrimRightEnds(s: string)
    ensures TrimRight(s) != "" ==> !Space(TrimRight(s)[|TrimRight(s)| - 1])
    ensures TrimRight(s) <= s
  {
    if s != "" && Space(s[|s| - 1]) { TrimRightEnds(s[..|s| - 1]); }
  }

  lemma NormalIsFixed(t: string)
    ensures Normal(Normal(t)) == Normal(t)
  {
    TrimLeftEnds(t);
    TrimRightEnds(TrimLeft(t));
    var u := Trim(t);
    assert u != "" ==> u[0] == TrimLeft(t)[0];
    assert forall c :: Space(LowerChar(c)) <==> Space(c);
    assert Trim(Lower(u)) == Lower(u);
    assert forall c :: LowerChar(LowerChar(c)) == LowerChar(c);
    assert Lower(Lower(u)) == Lower(u);
  }

  /** The result is distinct, without blanks, at most twelve long, and
      normalizing it again changes nothing. */
  lemma NormalTagsStable(tags: seq<string>)
    ensures |NormalTags(tags)| <= MAX_TAGS && "" !in NormalTags(tags)
    ensures forall i, j :: 0 <= i < j < |NormalTags(tags)| ==> NormalTags(tags)[i] != NormalTags(tags)[j]
    ensures NormalTags(NormalTags(tags)) == NormalTags(tags)
  {
    var ids := Normals(tags);
    FirstsMeans(ids);
    var out := NormalTags(tags);
    forall i | 0 <= i < |out| ensures Normal(out[i]) == out[i] {
      var at := Firsts(ids)[i];
      assert at in Firsts(ids);
      NormalIsFixed(tags[at]);
    }
    forall i | 0 <= i < |out| ensures out[i] != "" {
      assert Firsts(ids)[i] in Firsts(ids);
    }
    assert Normals(out) == out;
    FirstsOfDistinct(out);
  }

  lemma {:induction false} TrimLeftDrops(s: string) returns (l: string)
    ensures s == l + TrimLeft(s) && forall c :: c in l ==> Space(c)
  {
    if s != "" && Space(s[0]) {
      l := TrimLeftDrops(s[1..]);
      l := [s[0]] + l;
    } else {
      l := "";
    }
  }

  lemma {:induction false} TrimRightDrops(s: string) returns (r: string)
    ensures s == TrimRight(s) + r && forall c :: c in r ==> Space(c)
  {
    if s != "" && Space(s[|s| - 1]) {
      r := TrimRightDrops(s[..|s| - 1]);
      r := r + [s[|s| - 1]];
    } else {
      r := "";
    }
  }

  /** Trimming cuts blanks off both ends and nothing else: what remains neither
      begins nor ends with one. */
  lemma TrimMeans(s: string) returns (l: string, r: string)
    ensures s == l + Trim(s) + r
    ensures forall c :: c in l + r ==> c in " \t\n\r" || c == 11 as char || c == 12 as char
    ensures Trim(s) != "" ==> forall c :: c == Trim(s)[0] || c == Trim(s)[|Trim(s)| - 1] ==>
      c !in " \t\n\r" && c != 11 as char && c != 12 as char
  {
    l := TrimLeftDrops(s);
    r := TrimRightDrops(TrimLeft(s));
    TrimLeftEnds(s);
    TrimRightEnds(TrimLeft(s));
  }

  /** The result, tag by tag: the first occurrences, in order, of the trimmed and
      lower-cased tags that are not blank, all of them up to twelve. */
  lemma NormalTagsMeans(tags: seq<string>) returns (at: seq<nat>)
    ensures |Normals(tags)| == |tags| && forall i :: 0 <= i < |tags| ==> Normals(tags)[i] == Lower(Trim(tags[i]))
    ensures forall p, q :: 0 <= p < q < |at| ==> at[p] < at[q]
    ensures forall i: nat :: i in at <==>
      i < |tags| && Normals(tags)[i] != "" && forall j :: 0 <= j < i ==> Normals(tags)[j] != Normals(tags)[i]
    ensures |NormalTags(tags)| == if |at| <= 12 then |at| else 12
    ensures forall p :: 0 <= p < |NormalTags(tags)| ==>
      at[p] < |tags| && NormalTags(tags)[p] == Normals(tags)[at[p]]
  {
    FirstsMeans(Normals(tags));
    at := Firsts(Normals(tags));
  }
}

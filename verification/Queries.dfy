/** The keyword-querying sources, internal/sources/hn.go and reddit.go: one
    query per keyword, results deduplicated across queries. */
module Queries {
  import opened Core
  import opened Dedupe

  /** The results of the queries for the first n keywords: blank keywords are
      not queried, failed queries contribute nothing. */
  function Hits<T>(keywords: seq<string>, answers: seq<Answer<seq<T>>>, n: nat): seq<T>
    requires n <= |keywords| == |answers|
  {
    if n == 0 then []
    else
      var before := Hits(keywords, answers, n - 1);
      if keywords[n - 1] != "" && answers[n - 1].Got? then before + answers[n - 1].value else before
  }

  lemma HitsNext<T>(keywords: seq<string>, answers: seq<Answer<seq<T>>>, n: nat)
    requires n < |keywords| == |answers|
    ensures Hits(keywords, answers, n + 1) ==
      if keywords[n] != "" && answers[n].Got? then Hits(keywords, answers, n) + answers[n].value
      else Hits(keywords, answers, n)
  {
  }

  function IdsBy<T>(hits: seq<T>, id: T -> string): seq<string> {
    seq(|hits|, i requires 0 <= i < |hits| => id(hits[i]))
  }

  /** The first occurrence of each non-empty id, in order, as signals. */
  function FirstHits<T>(hits: seq<T>, id: T -> string, signal: T -> Signal): seq<Signal> {
    var at := Firsts(IdsBy(hits, id));
    seq(|at|, p requires 0 <= p < |at| => signal(hits[at[p]]))
  }

  lemma FirstHitsAdd<T>(hits: seq<T>, x: T, id: T -> string, signal: T -> Signal)
    ensures FirstHits(hits + [x], id, signal)
         == FirstHits(hits, id, signal) + if id(x) != "" && id(x) !in IdsBy(hits, id) then [signal(x)] else []
    ensures IdsBy(hits + [x], id) == IdsBy(hits, id) + [id(x)]
  {
    assert IdsBy(hits + [x], id) == IdsBy(hits, id) + [id(x)];
    FirstsAdd(IdsBy(hits, id), id(x));
  }

  /** For signals that carry the id, the result's ids are distinct and none is
      lost, however the queries overlap. */
  lemma FirstHitsMeans<T>(hits: seq<T>, id: T -> string, signal: T -> Signal)
    requires forall x :: id(x) != "" ==> signal(x).id == id(x)
    ensures var out := FirstHits(hits, id, signal);
      && (forall p :: 0 <= p < |out| ==> out[p].id != "")
      && (forall p, q :: 0 <= p < q < |out| ==> out[p].id != out[q].id)
      && (forall i :: 0 <= i < |hits| && id(hits[i]) != "" ==> exists p :: 0 <= p < |out| && out[p].id == id(hits[i]))
  {
    var ids, out := IdsBy(hits, id), FirstHits(hits, id, signal);
    FirstsMeans(ids);
    forall p | 0 <= p < |out| ensures out[p].id == ids[Firsts(ids)[p]] != "" {
      assert IsFirst(ids, Firsts(ids)[p]);
    }
    forall p, q | 0 <= p < q < |out| ensures out[p].id != out[q].id {
      assert IsFirst(ids, Firsts(ids)[q]);
    }
    forall i | 0 <= i < |hits| && id(hits[i]) != ""
      ensures exists p :: 0 <= p < |out| && out[p].id == id(hits[i])
    {
      assert ids[i] in ids;
      var p :| 0 <= p < |Firsts(ids)| && ids[Firsts(ids)[p]] == ids[i];
      assert out[p].id == ids[i];
    }
  }

  /** The inner loop both sources share: skip blanks and ids already seen. */
  method AddHits<T>(ghost before: seq<T>, hits: seq<T>, id: T -> string, signal: T -> Signal,
                    seen: set<string>, out: seq<Signal>)
    returns (seen': set<string>, out': seq<Signal>)
    requires forall x :: x in seen <==> x in IdsBy(before, id) && x != ""
    requires out == FirstHits(before, id, signal)
    ensures forall x :: x in seen' <==> x in IdsBy(before + hits, id) && x != ""
    ensures out' == FirstHits(before + hits, id, signal)
  {
    seen', out' := seen, out;
    ghost var all := before;
    for i := 0 to |hits|
      invariant all == before + hits[..i]
      invariant forall x :: x in seen' <==> x in IdsBy(all, id) && x != ""
      invariant out' == FirstHits(all, id, signal)
    {
      var hit := hits[i];
      FirstHitsAdd(all, hit, id, signal);
      all := all + [hit];
      if id(hit) == "" || id(hit) in seen' {
        continue;
      }
      seen' := seen' + {id(hit)};
      out' := out' + [signal(hit)];
    }
    assert hits[..|hits|] == hits;
  }

  // ----- Hacker News

  datatype Hit = Hit(
    objectId: string, title: string, url: string, author: string, storyText: string,
    points: int, numComments: int, createdAt: int)

  /** A Unix time in whole seconds, on the nanosecond line of Core. */
  function FromUnix(seconds: int): int { seconds * 1_000_000_000 }

  function HitId(): Hit -> string { (h: Hit) => h.objectId }

  function HitSignal(now: int): Hit -> Signal {
    (h: Hit) => Signal("hn", h.objectId, h.title, h.url, "https://news.ycombinator.com/item?id=" + h.objectId,
                       h.author, h.storyText, [], [], h.points, h.numComments, Some(FromUnix(h.createdAt)), now, false)
  }

  /** How many keywords come before the first whose query fails. */
  function BeforeFailure<T>(keywords: seq<string>, answers: seq<Answer<seq<T>>>, n: nat): (m: nat)
    requires n <= |keywords| == |answers|
    ensures n <= m <= |keywords|
    ensures forall k :: n <= k < m ==> keywords[k] == "" || answers[k].Got?
    ensures m < |keywords| ==> keywords[m] != "" && answers[m].Failed?
    decreases |keywords| - n
  {
    if n == |keywords| || (keywords[n] != "" && answers[n].Failed?) then n
    else BeforeFailure(keywords, answers, n + 1)
  }

  /** HN.Fetch: stops at the first failing query, keeping what it has. */
  method FetchHN(keywords: seq<string>, answers: seq<Answer<seq<Hit>>>, now: int)
    returns (out: seq<Signal>, err: Option<string>)
    requires |answers| == |keywords|
    ensures var m := BeforeFailure(keywords, answers, 0);
      && out == FirstHits(Hits(keywords, answers, m), HitId(), HitSignal(now))
      && err == if m == |keywords| then None else Some(answers[m].error)
  {
    var seen: set<string> := {};
    out := [];
    for k := 0 to |keywords|
      invariant BeforeFailure(keywords, answers, 0) == BeforeFailure(keywords, answers, k)
      invariant forall x :: x in seen <==> x in IdsBy(Hits(keywords, answers, k), HitId()) && x != ""
      invariant out == FirstHits(Hits(keywords, answers, k), HitId(), HitSignal(now))
    {
      ghost var before := Hits(keywords, answers, k);
      HitsNext(keywords, answers, k);
      if keywords[k] == "" {
        continue;
      }
      if answers[k].Failed? {
        return out, Some(answers[k].error);
      }
      seen, out := AddHits(before, answers[k].value, HitId(), HitSignal(now), seen, out);
    }
    return out, None;
  }

  // ----- Reddit

  datatype Post = Post(
    id: string, name: string, title: string, selftext: string, url: string, permalink: string,
    author: string, subreddit: string, score: int, numComments: int, created: int,
    isSelf: bool, stickied: bool)

  /** The id a post is deduplicated by; stickied posts have none. */
  function PostId(): Post -> string {
    (p: Post) => if p.stickied then "" else if p.name != "" then p.name else p.id
  }

  function PostSignal(now: int): Post -> Signal {
    (p: Post) => Signal("reddit", if p.name != "" then p.name else p.id, p.title, if p.isSelf then "" else p.url,
                        "https://www.reddit.com" + p.permalink, p.author, p.selftext, ["r/" + p.subreddit], [],
                        p.score, p.numComments, Some(FromUnix(p.created)), now, false)
  }

  /** The answers to the queries made for the first n keywords. */
  function Asked<T>(keywords: seq<string>, answers: seq<Answer<T>>, n: nat): seq<Answer<T>>
    requires n <= |keywords| == |answers|
  {
    if n == 0 then []
    else if keywords[n - 1] == "" then Asked(keywords, answers, n - 1)
    else Asked(keywords, answers, n - 1) + [answers[n - 1]]
  }

  datatype RedditError = NoSubreddits | NoToken | Cancelled | QueryFailed(error: string)

  /** Reddit.Fetch. `token` is false when the token exchange fails; `stopAt` is
      the pause, if any, that finds the context cancelled: there is none before
      the first keyword of the list nor before a blank one. */
  method FetchReddit(subreddits: seq<string>, token: bool, keywords: seq<string>, answers: seq<Answer<seq<Post>>>,
                     stopAt: Option<nat>, now: int)
    returns (out: seq<Signal>, err: Option<RedditError>)
    requires |answers| == |keywords|
    ensures subreddits == [] ==> out == [] && err == Some(NoSubreddits)
    ensures subreddits != [] && !token ==> out == [] && err == Some(NoToken)
    ensures subreddits != [] && token ==>
      var stopped := stopAt.Some? && 0 < stopAt.value < |keywords| && keywords[stopAt.value] != "";
      var m := if stopped then stopAt.value else |keywords|;
      && out == FirstHits(Hits(keywords, answers, m), PostId(), PostSignal(now))
      && (stopped ==> err == Some(Cancelled))
      && (!stopped ==> err.None? || err.value.QueryFailed?)
      && (!stopped ==> FirstError(Asked(keywords, answers, m), if err.None? then None else Some(err.value.error)))
  {
    out := [];
    if |subreddits| == 0 {
      return [], Some(NoSubreddits);
    }
    if !token {
      return [], Some(NoToken);
    }
    var seen: set<string> := {};
    var firstErr: Option<string> := None;
    for k := 0 to |keywords|
      invariant stopAt.Some? && 0 < stopAt.value < k ==> keywords[stopAt.value] == ""
      invariant forall x :: x in seen <==> x in IdsBy(Hits(keywords, answers, k), PostId()) && x != ""
      invariant out == FirstHits(Hits(keywords, answers, k), PostId(), PostSignal(now))
      invariant FirstError(Asked(keywords, answers, k), firstErr)
    {
      ghost var before := Hits(keywords, answers, k);
      HitsNext(keywords, answers, k);
      FirstErrorAdd(Asked(keywords, answers, k), answers[k], firstErr);
      if keywords[k] == "" {
        continue;
      }
      if k > 0 && stopAt == Some(k) {
        return out, Some(Cancelled);
      }
      match answers[k]
      case Failed(e) =>
        if firstErr.None? {
          firstErr := Some(e);
        }
      case Got(posts) =>
        seen, out := AddHits(before, posts, PostId(), PostSignal(now), seen, out);
    }
    err := if firstErr.None? then None else Some(QueryFailed(firstErr.value));
  }

  /** Whatever the queries return, both sources give distinct, non-empty ids and
      lose none of the answered ones (stickied posts aside). */
  lemma QueriesDedupe(hits: seq<Hit>, posts: seq<Post>, now: int)
    ensures var out := FirstHits(hits, HitId(), HitSignal(now));
      && (forall p, q :: 0 <= p < q < |out| ==> out[p].id != out[q].id)
      && (forall i :: 0 <= i < |hits| && hits[i].objectId != "" ==>
            exists p :: 0 <= p < |out| && out[p].id == hits[i].objectId)
    ensures var out := FirstHits(posts, PostId(), PostSignal(now));
      && (forall p, q :: 0 <= p < q < |out| ==> out[p].id != out[q].id)
      && (forall i :: 0 <= i < |posts| && PostId()(posts[i]) != "" ==>
            exists p :: 0 <= p < |out| && out[p].id == PostId()(posts[i]))
  {
    FirstHitsMeans(hits, HitId(), HitSignal(now));
    FirstHitsMeans(posts, PostId(), PostSignal(now));
  }

  // ----- the results, field by field

  /** The answers that count for the first error are those of the queries made,
      one per keyword that is not blank, in order. */
  lemma AskedNext<T>(keywords: seq<string>, answers: seq<Answer<T>>, n: nat)
    requires n < |keywords| == |answers|
    ensures Asked(keywords, answers, 0) == []
    ensures Asked(keywords, answers, n + 1) ==
      Asked(keywords, answers, n) + if keywords[n] == "" then [] else [answers[n]]
  {
  }

  /** Hacker News: in order, exactly the hits with an id that no earlier hit has,
      each field where it belongs; times are Unix seconds. */
  lemma HNMeans(hits: seq<Hit>, now: int) returns (at: seq<nat>)
    ensures forall p, q :: 0 <= p < q < |at| ==> at[p] < at[q]
    ensures forall i: nat :: i in at <==>
      i < |hits| && hits[i].objectId != "" && forall j :: 0 <= j < i ==> hits[j].objectId != hits[i].objectId
    ensures var out := FirstHits(hits, HitId(), HitSignal(now));
      |out| == |at| && forall p :: 0 <= p < |at| ==>
        && at[p] < |hits|
        && var h, s := hits[at[p]], out[p];
        && s.source == "hn" && s.id == h.objectId && s.title == h.title && s.url == h.url
        && s.permalink == "https://news.ycombinator.com/item?id=" + h.objectId
        && s.author == h.author && s.body == h.storyText && s.tags == [] && s.topComments == []
        && s.score == h.points && s.numComments == h.numComments
        && s.createdAt == Some(h.createdAt * 1_000_000_000) && s.fetchedAt == now && !s.prenarrowed
  {
    var ids := IdsBy(hits, HitId());
    FirstsMeans(ids);
    at := Firsts(ids);
    forall i: nat
      ensures i in at <==>
        i < |hits| && hits[i].objectId != "" && forall j :: 0 <= j < i ==> hits[j].objectId != hits[i].objectId
    {
      assert i in at <==> IsFirst(ids, i);
      assert forall j :: 0 <= j < |hits| ==> ids[j] == hits[j].objectId;
    }
  }

  /** The id Reddit gives a post: its full name, or the bare id without one. */
  function NameOrId(p: Post): string { if p.name != "" then p.name else p.id }

  /** Reddit: in order, exactly the posts that are not stickied, have a name or
      an id, and share it with no earlier post that is not stickied; each field
      where it belongs. So an id that only stickied posts have is absent. */
  lemma RedditMeans(posts: seq<Post>, now: int) returns (at: seq<nat>)
    ensures forall p, q :: 0 <= p < q < |at| ==> at[p] < at[q]
    ensures forall i: nat :: i in at <==>
      && i < |posts| && !posts[i].stickied && NameOrId(posts[i]) != ""
      && forall j :: 0 <= j < i && !posts[j].stickied ==> NameOrId(posts[j]) != NameOrId(posts[i])
    ensures forall p: Post :: (p.name != "" ==> NameOrId(p) == p.name) && (p.name == "" ==> NameOrId(p) == p.id)
    ensures var out := FirstHits(posts, PostId(), PostSignal(now));
      |out| == |at| && forall p :: 0 <= p < |at| ==>
        && at[p] < |posts|
        && var x, s := posts[at[p]], out[p];
        && s.source == "reddit" && s.id == NameOrId(x) && s.title == x.title
        && s.url == (if x.isSelf then "" else x.url) && s.permalink == "https://www.reddit.com" + x.permalink
        && s.author == x.author && s.body == x.selftext && s.tags == ["r/" + x.subreddit] && s.topComments == []
        && s.score == x.score && s.numComments == x.numComments
        && s.createdAt == Some(x.created * 1_000_000_000) && s.fetchedAt == now && !s.prenarrowed
  {
    var ids := IdsBy(posts, PostId());
    FirstsMeans(ids);
    at := Firsts(ids);
    forall i: nat
      ensures i in at <==>
        && i < |posts| && !posts[i].stickied && NameOrId(posts[i]) != ""
        && forall j :: 0 <= j < i && !posts[j].stickied ==> NameOrId(posts[j]) != NameOrId(posts[i])
    {
      assert i in at <==> IsFirst(ids, i);
      assert forall j :: 0 <= j < |posts| ==> ids[j] == if posts[j].stickied then "" else NameOrId(posts[j]);
    }
  }

  /** An id all of whose listings are stickied is absent. */
  lemma StickiedAbsent(posts: seq<Post>, now: int, id: string)
    requires forall i :: 0 <= i < |posts| && NameOrId(posts[i]) == id ==> posts[i].stickied
    ensures forall s :: s in FirstHits(posts, PostId(), PostSignal(now)) ==> s.id != id
  {
    var at := RedditMeans(posts, now);
    var out := FirstHits(posts, PostId(), PostSignal(now));
    forall s | s in out ensures s.id != id {
      var p :| 0 <= p < |out| && out[p] == s;
      assert at[p] in at;
    }
  }
}

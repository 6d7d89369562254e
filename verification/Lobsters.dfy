/** The feed merge of internal/sources/lobsters.go. */
module Lobsters {
  import opened Core
  import opened Text
  import opened Dedupe

  datatype Feed = Feed(url: string, prenarrowed: bool)

  datatype Story = Story(
    shortId: string, created: Option<int>, title: string, url: string, score: int,
    commentCount: int, description: string, commentsUrl: string, tags: seq<string>, submitter: string)

  /** The feeds to poll: the global one, and the tag feed when there are tags. */
  function Feeds(base: string, tags: seq<string>): seq<Feed> {
    [Feed(base + "/newest.json", false)] +
    if |tags| > 0 then [Feed(base + "/t/" + Join(tags, ",") + ".json", true)] else []
  }

  function StorySignal(st: Story, now: int, prenarrowed: bool): Signal {
    Signal("lobsters", st.shortId, st.title, st.url, st.commentsUrl, st.submitter, st.description,
           st.tags, [], st.score, st.commentCount, st.created, now, prenarrowed)
  }

  /** A story as one feed listed it. */
  datatype Item = Item(story: Story, prenarrowed: bool)

  function ItemsOf(stories: seq<Story>, prenarrowed: bool): seq<Item> {
    seq(|stories|, i requires 0 <= i < |stories| => Item(stories[i], prenarrowed))
  }

  /** Everything the first n feeds listed, failed feeds contributing nothing. */
  function Listed(feeds: seq<Feed>, answers: seq<Answer<seq<Story>>>, n: nat): seq<Item>
    requires n <= |feeds| == |answers|
  {
    if n == 0 then []
    else
      var before := Listed(feeds, answers, n - 1);
      if answers[n - 1].Got? then before + ItemsOf(answers[n - 1].value, feeds[n - 1].prenarrowed) else before
  }

  lemma ListedNext(feeds: seq<Feed>, answers: seq<Answer<seq<Story>>>, n: nat)
    requires n < |feeds| == |answers|
    ensures Listed(feeds, answers, n + 1) ==
      if answers[n].Got? then Listed(feeds, answers, n) + ItemsOf(answers[n].value, feeds[n].prenarrowed)
      else Listed(feeds, answers, n)
  {
  }

  function ItemIds(items: seq<Item>): seq<string> {
    seq(|items|, i requires 0 <= i < |items| => items[i].story.shortId)
  }

  predicate NarrowedSomewhere(items: seq<Item>, id: string) {
    exists i | 0 <= i < |items| :: items[i].story.shortId == id && items[i].prenarrowed
  }

  /** The specification of the merge: each story once, as its first occurrence
      has it, in the order of first occurrences, and pre-narrowed when any
      listing of it is. */
  function Merged(items: seq<Item>, now: int): seq<Signal> {
    var at := Firsts(ItemIds(items));
    seq(|at|, p requires 0 <= p < |at| =>
      StorySignal(items[at[p]].story, now, NarrowedSomewhere(items, items[at[p]].story.shortId)))
  }

  /** The index map points at every id's position in the output. */
  ghost predicate Indexed(items: seq<Item>, index: map<string, nat>) {
    var at := Firsts(ItemIds(items));
    && (forall id :: id in index <==> id in ItemIds(items) && id != "")
    && (forall id :: id in index ==> index[id] < |at| && items[at[index[id]]].story.shortId == id)
  }

  /** One story more: upgrade the output in place, or append. */
  method AddStory(ghost items: seq<Item>, st: Story, f: Feed, now: int, index: map<string, nat>, out: seq<Signal>)
    returns (index': map<string, nat>, out': seq<Signal>)
    requires Indexed(items, index) && out == Merged(items, now)
    ensures Indexed(items + [Item(st, f.prenarrowed)], index')
    ensures out' == Merged(items + [Item(st, f.prenarrowed)], now)
  {
    index', out' := index, out;
    ghost var x := Item(st, f.prenarrowed);
    FirstsOfMore(items, x);
    if st.shortId == "" {
      MergedSame(items, x, now);
      return;
    }
    if st.shortId in index {
      var i := index[st.shortId];
      MergedUpgrade(items, x, now, i);
      out' := out[i := out[i].(prenarrowed := out[i].prenarrowed || f.prenarrowed)];
      return;
    }
    index' := index[st.shortId := |out|];
    out' := out + [StorySignal(st, now, f.prenarrowed)];
    MergedNew(items, x, now);
  }

  lemma FirstsOfMore(items: seq<Item>, x: Item)
    ensures ItemIds(items + [x]) == ItemIds(items) + [x.story.shortId]
    ensures Firsts(ItemIds(items + [x])) == Firsts(ItemIds(items)) +
      if x.story.shortId != "" && x.story.shortId !in ItemIds(items) then [|items|] else []
  {
    assert ItemIds(items + [x]) == ItemIds(items) + [x.story.shortId];
    FirstsAdd(ItemIds(items), x.story.shortId);
  }

  lemma MergedSame(items: seq<Item>, x: Item, now: int)
    requires x.story.shortId == ""
    ensures Merged(items + [x], now) == Merged(items, now)
  {
    FirstsOfMore(items, x);
    NarrowedAdd(items, x);
    FirstsMeans(ItemIds(items));
    var at := Firsts(ItemIds(items));
    forall p | 0 <= p < |at|
      ensures Merged(items + [x], now)[p] == Merged(items, now)[p]
    {
      assert IsFirst(ItemIds(items), at[p]) by { assert at[p] in at; }
    }
  }

  lemma MergedUpgrade(items: seq<Item>, x: Item, now: int, i: nat)
    requires x.story.shortId in ItemIds(items) && x.story.shortId != ""
    requires i < |Merged(items, now)| && items[Firsts(ItemIds(items))[i]].story.shortId == x.story.shortId
    ensures var out := Merged(items, now);
      Merged(items + [x], now) == out[i := out[i].(prenarrowed := out[i].prenarrowed || x.prenarrowed)]
  {
    FirstsOfMore(items, x);
    NarrowedAdd(items, x);
    FirstsMeans(ItemIds(items));
    var at, out := Firsts(ItemIds(items)), Merged(items, now);
    forall p | 0 <= p < |at|
      ensures Merged(items + [x], now)[p] == out[i := out[i].(prenarrowed := out[i].prenarrowed || x.prenarrowed)][p]
    {
      assert ItemIds(items)[at[p]] == items[at[p]].story.shortId;
      assert ItemIds(items)[at[i]] == x.story.shortId;
      assert p != i ==> ItemIds(items)[at[p]] != ItemIds(items)[at[i]];
    }
  }

  lemma MergedNew(items: seq<Item>, x: Item, now: int)
    requires x.story.shortId !in ItemIds(items) && x.story.shortId != ""
    ensures Merged(items + [x], now) == Merged(items, now) + [StorySignal(x.story, now, x.prenarrowed)]
  {
    FirstsOfMore(items, x);
    NarrowedAdd(items, x);
    var at := Firsts(ItemIds(items));
    forall p | 0 <= p < |at|
      ensures Merged(items + [x], now)[p] == Merged(items, now)[p]
    {
      assert ItemIds(items)[at[p]] == items[at[p]].story.shortId;
    }
  }

  lemma NarrowedAdd(items: seq<Item>, x: Item)
    ensures forall id :: NarrowedSomewhere(items + [x], id) <==>
      NarrowedSomewhere(items, id) || (x.story.shortId == id && x.prenarrowed)
    ensures forall id :: NarrowedSomewhere(items, id) ==> id in ItemIds(items)
  {
    var more := items + [x];
    forall id
      ensures NarrowedSomewhere(more, id) <==> NarrowedSomewhere(items, id) || (x.story.shortId == id && x.prenarrowed)
    {
      if NarrowedSomewhere(items, id) {
        var i :| 0 <= i < |items| && items[i].story.shortId == id && items[i].prenarrowed;
        assert more[i] == items[i];
      }
      if x.story.shortId == id && x.prenarrowed {
        assert more[|items|] == x;
      }
    }
    forall id | NarrowedSomewhere(items, id) ensures id in ItemIds(items) {
      var i :| 0 <= i < |items| && items[i].story.shortId == id && items[i].prenarrowed;
      assert ItemIds(items)[i] == id;
    }
  }

  /** The stories of one feed. */
  method AddFeed(ghost items: seq<Item>, stories: seq<Story>, f: Feed, now: int,
                 index: map<string, nat>, out: seq<Signal>)
    returns (index': map<string, nat>, out': seq<Signal>)
    requires Indexed(items, index) && out == Merged(items, now)
    ensures Indexed(items + ItemsOf(stories, f.prenarrowed), index')
    ensures out' == Merged(items + ItemsOf(stories, f.prenarrowed), now)
  {
    index', out' := index, out;
    ghost var all := items;
    for i := 0 to |stories|
      invariant all == items + ItemsOf(stories[..i], f.prenarrowed)
      invariant Indexed(all, index') && out' == Merged(all, now)
    {
      index', out' := AddStory(all, stories[i], f, now, index', out');
      all := all + [Item(stories[i], f.prenarrowed)];
    }
    assert stories[..|stories|] == stories;
  }

  /** Lobsters.Fetch over any feeds and answers. */
  method FetchLobsters(feeds: seq<Feed>, answers: seq<Answer<seq<Story>>>, now: int)
    returns (out: seq<Signal>, firstErr: Option<string>)
    requires |answers| == |feeds|
    ensures out == Merged(Listed(feeds, answers, |feeds|), now)
    ensures FirstError(answers, firstErr)
  {
    var index: map<string, nat> := map[];
    out, firstErr := [], None;
    for n := 0 to |feeds|
      invariant Indexed(Listed(feeds, answers, n), index)
      invariant out == Merged(Listed(feeds, answers, n), now)
      invariant FirstError(answers[..n], firstErr)
    {
      ghost var before := Listed(feeds, answers, n);
      ListedNext(feeds, answers, n);
      FirstErrorNext(answers, n, firstErr);
      match answers[n]
      case Failed(e) =>
        if firstErr.None? {
          firstErr := Some(e);
        }
      case Got(stories) =>
        index, out := AddFeed(before, stories, feeds[n], now, index, out);
    }
    assert answers[..|feeds|] == answers;
  }

  /** The listings of the configured feeds: a story is pre-narrowed when the tag
      feed answered and lists it, and by nothing else. */
  lemma TagFeedNarrows(base: string, tags: seq<string>, answers: seq<Answer<seq<Story>>>, id: string)
    requires |answers| == |Feeds(base, tags)|
    ensures NarrowedSomewhere(Listed(Feeds(base, tags), answers, |answers|), id) <==>
      |tags| > 0 && answers[1].Got? && exists i :: 0 <= i < |answers[1].value| && answers[1].value[i].shortId == id
  {
    var feeds := Feeds(base, tags);
    ListedNext(feeds, answers, 0);
    var first := Listed(feeds, answers, 1);
    assert forall i :: 0 <= i < |first| ==> !first[i].prenarrowed;
    if |tags| > 0 {
      ListedNext(feeds, answers, 1);
      if answers[1].Got? {
        var all, tagged := Listed(feeds, answers, 2), ItemsOf(answers[1].value, true);
        assert all == first + tagged;
        if i :| 0 <= i < |answers[1].value| && answers[1].value[i].shortId == id {
          assert all[|first| + i] == tagged[i];
        }
        if NarrowedSomewhere(all, id) {
          var i :| 0 <= i < |all| && all[i].story.shortId == id && all[i].prenarrowed;
          assert answers[1].value[i - |first|].shortId == id;
        }
      }
    }
  }

  /** A story as a signal, field by field: the id, title, link and thread where
      they belong, the description for its body, its tags, and the time it was
      created, if that is known. */
  lemma StoryFields(st: Story, now: int, prenarrowed: bool)
    ensures var s := StorySignal(st, now, prenarrowed);
      && s.source == "lobsters" && s.id == st.shortId && s.title == st.title && s.url == st.url
      && s.permalink == st.commentsUrl && s.author == st.submitter && s.body == st.description
      && s.tags == st.tags && s.topComments == [] && s.score == st.score && s.numComments == st.commentCount
      && s.createdAt == st.created && s.fetchedAt == now && s.prenarrowed == prenarrowed
  {
  }

  /** The merged stories are the first occurrences of the listed ids, in order,
      each as its first listing has it. */
  lemma MergedFirsts(items: seq<Item>, now: int)
    ensures var out, at := Merged(items, now), Firsts(ItemIds(items));
      && |out| == |at| && (forall p, q :: 0 <= p < q < |at| ==> at[p] < at[q])
      && (forall p :: 0 <= p < |out| ==> IsFirst(ItemIds(items), at[p]) && out[p].id == ItemIds(items)[at[p]] != "")
      && (forall p :: 0 <= p < |out| ==> out[p] == StorySignal(items[at[p]].story, now, out[p].prenarrowed))
  {
    var ids := ItemIds(items);
    FirstsMeans(ids);
    forall p | 0 <= p < |Firsts(ids)| ensures IsFirst(ids, Firsts(ids)[p]) {
      assert Firsts(ids)[p] in Firsts(ids);
    }
  }

  /** What the merge promises, signal by signal. */
  lemma MergedMeans(items: seq<Item>, now: int)
    ensures var out := Merged(items, now);
      && (forall p :: 0 <= p < |out| ==> out[p].id != "")
      && (forall p, q :: 0 <= p < q < |out| ==> out[p].id != out[q].id)
      && (forall i :: 0 <= i < |items| && items[i].story.shortId != "" ==>
            exists p :: 0 <= p < |out| && out[p].id == items[i].story.shortId)
      && (forall p :: 0 <= p < |out| ==>
            (out[p].prenarrowed <==>
               exists i :: 0 <= i < |items| && items[i].story.shortId == out[p].id && items[i].prenarrowed))
  {
    var ids, out := ItemIds(items), Merged(items, now);
    MergedFirsts(items, now);
    FirstsMeans(ids);
    forall i | 0 <= i < |items| && items[i].story.shortId != ""
      ensures exists p :: 0 <= p < |out| && out[p].id == items[i].story.shortId
    {
      assert ids[i] in ids;
      var p :| 0 <= p < |Firsts(ids)| && ids[Firsts(ids)[p]] == ids[i];
      assert out[p].id == ids[i];
    }
  }

  /** The feeds polled: the global listing always, and with tags one more, whose
      address names them all, separated by commas, and which pre-narrows. */
  lemma FeedsMean(base: string, tags: seq<string>)
    ensures Feeds(base, tags)[0] == Feed(base + "/newest.json", false)
    ensures |Feeds(base, tags)| == if tags == [] then 1 else 2
    ensures tags != [] ==>
      var f, head, tail := Feeds(base, tags)[1], base + "/t/", ".json";
      var list := Join(tags, ",");
      && f == Feed(head + list + tail, true)
      && ((forall t :: t in tags ==> Free(t, ',')) ==> Split(list, ',') == tags)
  {
    if tags != [] && forall t :: t in tags ==> Free(t, ',') {
      SplitOfJoin(tags, ',');
    }
  }

  lemma {:induction false} SplitOfJoin(parts: seq<string>, c: char)
    requires parts != [] && forall t :: t in parts ==> Free(t, c)
    ensures Split(Join(parts, [c]), c) == parts
  {
    SplitFree(parts[0], c);
    if |parts| == 1 {
      assert parts == [parts[0]];
    } else {
      SplitOfJoin(parts[1..], c);
      SplitConcat(parts[0], Join(parts[1..], [c]), c);
      assert parts == [parts[0]] + parts[1..];
    }
  }
}

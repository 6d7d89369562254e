/** The file store and the database are interchangeable under the engine: on
    any sequence of runs and purges that start empty, with colon-free beacon
    and source names and a database that answers, nobody can tell them apart. */
module TwoStores {
  import opened Core
  import opened Keys
  import opened StoreState
  import opened SqlStore
  import opened Backend
  import opened Engine

  ghost predicate DistinctKeys(fs: seq<Finding>) {
    forall i, j :: 0 <= i < j < |fs| ==> TripleOf(fs[i]) != TripleOf(fs[j])
  }

  function KeySet(ts: set<Triple>): set<string> { set t | t in ts :: KeyOf(t) }

  function Triples(fs: seq<Finding>): set<Triple> { set f | f in fs :: TripleOf(f) }

  /** The file's flattened keys are the database's rows; its findings are
      pairwise distinct, all marked, and the database's rows. */
  ghost predicate Same(st: State, db: Db) {
    && (forall t :: t in db.seen ==> WellNamed(t))
    && st.seen.Keys == KeySet(db.seen)
    && (forall k :: k in st.seen ==> st.seen[k])
    && DistinctKeys(st.findings)
    && db.finding.Keys == Triples(st.findings) <= db.seen
    && (forall f :: f in st.findings ==> db.finding[TripleOf(f)] == f)
    && st.claims == db.claims
  }

  lemma SameMarks(st: State, db: Db, t: Triple)
    requires Same(st, db) && WellNamed(t)
    ensures IsSeen(st, t) <==> t in db.seen
  {
    if KeyOf(t) in st.seen {
      var u :| u in db.seen && KeyOf(u) == KeyOf(t);
      KeyInjective(t, u);
    }
  }

  lemma SameAfterMark(st: State, db: Db, t: Triple)
    requires Same(st, db) && WellNamed(t)
    ensures Same(Apply(st, Mark(t)), SqlApply(db, Mark(t)))
  {
    assert KeySet(db.seen + {t}) == KeySet(db.seen) + {KeyOf(t)};
  }

  lemma SameAfterClaim(st: State, db: Db, id: string, who: string)
    requires Same(st, db)
    ensures Same(Apply(st, ClaimIt(id, who)), SqlApply(db, ClaimIt(id, who)))
  {
  }

  /** Recording keeps the stores alike because the key was not marked before. */
  lemma SameAfterRecord(st: State, db: Db, f: Finding)
    requires Same(st, db) && WellNamed(TripleOf(f)) && !IsSeen(st, TripleOf(f))
    ensures Same(Apply(st, Rec(f)), SqlApply(db, Rec(f)))
  {
    var t := TripleOf(f);
    SameMarks(st, db, t);
    SameAfterMark(st, db, t);
    FreshFinding(st.findings, f);
  }

  /** A finding whose triple is new keeps the list without duplicates. */
  lemma FreshFinding(fs: seq<Finding>, f: Finding)
    requires DistinctKeys(fs) && TripleOf(f) !in Triples(fs)
    ensures DistinctKeys(fs + [f])
    ensures Triples(fs + [f]) == Triples(fs) + {TripleOf(f)}
    ensures forall g :: g in fs + [f] <==> g in fs || g == f
    ensures forall g :: g in fs ==> TripleOf(g) != TripleOf(f)
  {
    forall g | g in fs ensures TripleOf(g) in Triples(fs) {
    }
    assert forall i :: 0 <= i < |fs| ==> fs[i] in fs;
  }

  // ----- one signal, one run

  ghost predicate Alike(a: Store, b: Store) {
    a.InFile? && b.InSql? && Same(a.mem, b.db)
  }

  lemma StepAlike(cfg: BeaconConfig, pre: set<string>, now: int, s: Signal, fate: Fate, p: Progress, q: Progress)
    requires Alike(p.store, q.store) && WellNamed(SignalTriple(cfg.name, s))
    requires p.counts == q.counts && p.posts == q.posts && p.outcomes == q.outcomes
    requires !fate.seenFails && fate.save.Completes?
    ensures var p', q' := Step(cfg, pre, now, s, fate, p), Step(cfg, pre, now, s, fate, q);
      && Alike(p'.store, q'.store)
      && p'.counts == q'.counts && p'.posts == q'.posts && p'.outcomes == q'.outcomes
  {
    var t := SignalTriple(cfg.name, s);
    SameMarks(p.store.mem, q.store.db, t);
    var o := OutcomeOf(cfg, pre, now, s, fate, p.store);
    assert o == OutcomeOf(cfg, pre, now, s, fate, q.store);
    var op := OpOf(cfg.name, s, o);
    if op.Mark? {
      SameAfterMark(p.store.mem, q.store.db, t);
    } else if op.Rec? {
      SameAfterRecord(p.store.mem, q.store.db, op.finding);
    }
  }

  /** The database answers every call of this run; classifier and sink may
      still fail. */
  ghost predicate StoreAnswers(j: Job) {
    forall i :: 0 <= i < |j.fates| ==> !j.fates[i].seenFails && j.fates[i].save.Completes?
  }

  ghost predicate ColonFreeNames(j: Job) {
    ColonFree(j.cfg.name) && forall i :: 0 <= i < |j.signals| ==> ColonFree(j.signals[i].source)
  }

  lemma {:induction false} RunAlike(j: Job, k: nat, p: Progress, q: Progress)
    requires j.Fits() && k <= |j.signals| && StoreAnswers(j) && ColonFreeNames(j)
    requires Alike(p.store, q.store)
    requires p.counts == q.counts && p.posts == q.posts && p.outcomes == q.outcomes
    ensures var p', q' := After(j, k, p), After(j, k, q);
      && Alike(p'.store, q'.store)
      && p'.counts == q'.counts && p'.posts == q'.posts && p'.outcomes == q'.outcomes
  {
    if k > 0 {
      RunAlike(j, k - 1, p, q);
      StepAlike(j.cfg, j.pre, j.now, j.signals[k - 1], j.fates[k - 1], After(j, k - 1, p), After(j, k - 1, q));
    }
  }

  // ----- purges

  lemma {:induction false} KeySetSize(ts: set<Triple>)
    requires forall t :: t in ts ==> WellNamed(t)
    ensures |KeySet(ts)| == |ts|
  {
    if ts != {} {
      var t :| t in ts;
      KeySetSize(ts - {t});
      assert KeyOf(t) !in KeySet(ts - {t}) by {
        if KeyOf(t) in KeySet(ts - {t}) {
          var u :| u in ts - {t} && KeyOf(u) == KeyOf(t);
          KeyInjective(t, u);
        }
      }
      assert KeySet(ts) == KeySet(ts - {t}) + {KeyOf(t)};
    }
  }

  /** A purge hits exactly the keys of the rows a database purge deletes. */
  lemma HitsAreRows(st: State, db: Db, source: string)
    requires Same(st, db)
    ensures HitKeys(st.seen, source) == KeySet(SeenRows(db, source))
    ensures PurgedSeen(st.seen, source).Keys == KeySet(db.seen - SeenRows(db, source))
  {
    forall t | t in db.seen
      ensures PurgeHits(KeyOf(t), source) <==> t.source == source
    {
      PurgeReadsMiddle(t.beacon, t.source, t.id, source);
      MiddleOfWellNamed(t);
    }
  }

  lemma {:induction false} SelectDistinct(fs: seq<Finding>, keep: Finding -> bool)
    requires DistinctKeys(fs)
    ensures DistinctKeys(Select(fs, keep))
  {
    if fs != [] {
      var init, last := fs[..|fs| - 1], fs[|fs| - 1];
      SelectDistinct(init, keep);
      SelectMembers(init, keep);
      LastIsNew(fs);
      var kept := Select(init, keep);
      assert forall i :: 0 <= i < |kept| ==> kept[i] in init;
    }
  }

  lemma LastIsNew(fs: seq<Finding>)
    requires fs != [] && DistinctKeys(fs)
    ensures forall f :: f in fs[..|fs| - 1] ==> TripleOf(f) != TripleOf(fs[|fs| - 1])
    ensures Triples(fs) == Triples(fs[..|fs| - 1]) + {TripleOf(fs[|fs| - 1])}
  {
    var init, last := fs[..|fs| - 1], fs[|fs| - 1];
    assert forall f :: f in fs <==> f in init || f == last;
  }

  function RowsOf(ts: set<Triple>, source: string): set<Triple> {
    set t | t in ts && t.source == source
  }

  lemma {:induction false} DroppedRows(fs: seq<Finding>, source: string)
    requires DistinctKeys(fs)
    ensures |fs| - |Select(fs, NotOfSource(source))| == |RowsOf(Triples(fs), source)|
  {
    if fs != [] {
      var init, t := fs[..|fs| - 1], TripleOf(fs[|fs| - 1]);
      DroppedRows(init, source);
      LastIsNew(fs);
      assert t !in Triples(init);
      var rows := RowsOf(Triples(init), source);
      assert RowsOf(Triples(fs), source) == if t.source == source then rows + {t} else rows;
    }
  }

  lemma PurgeAlike(st: State, db: Db, source: string)
    requires Same(st, db)
    ensures Same(Purged(st, source), SqlPurged(db, source))
    ensures PurgeCount(st, source) == SqlPurgeCount(db, source)
  {
    HitsAreRows(st, db, source);
    KeySetSize(SeenRows(db, source));
    SelectDistinct(st.findings, NotOfSource(source));
    DroppedRows(st.findings, source);
    SelectMembers(st.findings, NotOfSource(source));
    var fs := Purged(st, source).findings;
    assert FindingRows(db, source) == RowsOf(Triples(st.findings), source);
    assert Triples(fs) == Triples(st.findings) - FindingRows(db, source) by {
      forall t | t in Triples(st.findings) - FindingRows(db, source)
        ensures t in Triples(fs)
      {
        var f :| f in st.findings && TripleOf(f) == t;
        assert f in fs;
      }
    }
  }

  // ----- digests

  lemma {:induction false} CountOnce<T>(xs: seq<T>, x: T)
    requires forall i, j :: 0 <= i < j < |xs| ==> xs[i] != xs[j]
    ensures multiset(xs)[x] == if x in xs then 1 else 0
  {
    if xs != [] {
      CountOnce(xs[..|xs| - 1], x);
      assert xs == xs[..|xs| - 1] + [xs[|xs| - 1]];
    }
  }

  /** The database's rows for a beacon carry exactly its findings, each once. */
  lemma RowsCarryFindings(st: State, db: Db, beacon: string, rows: seq<Triple>)
    requires Same(st, db) && Lists(db, beacon, rows)
    ensures var data := RowData(db, rows);
      && (forall i, j :: 0 <= i < j < |data| ==> data[i] != data[j])
      && forall f :: f in data <==> f in st.findings && f.beacon == beacon
  {
    var data := RowData(db, rows);
    forall i | 0 <= i < |data|
      ensures data[i] in st.findings && TripleOf(data[i]) == rows[i] && data[i].beacon == beacon
    {
      assert rows[i] in rows && rows[i] in Triples(st.findings);
      var f :| f in st.findings && TripleOf(f) == rows[i];
    }
    forall f | f in st.findings && f.beacon == beacon ensures f in data {
      assert TripleOf(f) in Triples(st.findings);
      var i :| 0 <= i < |rows| && rows[i] == TripleOf(f);
      assert data[i] == f;
    }
  }

  /** Whatever order the database returns the rows in, the digest is the same
      multiset of findings. */
  lemma DigestsAgree(st: State, db: Db, beacon: string, rows: seq<Triple>)
    requires Same(st, db) && Lists(db, beacon, rows)
    ensures multiset(RowData(db, rows)) == multiset(Select(st.findings, OfBeacon(beacon)))
  {
    var data, fs := RowData(db, rows), Select(st.findings, OfBeacon(beacon));
    RowsCarryFindings(st, db, beacon, rows);
    SelectMembers(st.findings, OfBeacon(beacon));
    SelectDistinct(st.findings, OfBeacon(beacon));
    forall f ensures multiset(data)[f] == multiset(fs)[f] {
      CountOnce(data, f);
      CountOnce(fs, f);
    }
  }

  // ----- whole histories

  datatype Event = Poll(j: Job) | Purge(source: string)

  /** What an observer of the process sees of one event. */
  datatype Observed =
    | Polled(counts: map<string, Counters>, posts: seq<Finding>, outcomes: seq<Outcome>)
    | Counted(rows: nat)

  predicate Playable(e: Event) { e.Poll? ==> e.j.Fits() }

  ghost predicate Fair(e: Event)
    requires Playable(e)
  {
    e.Poll? ==> StoreAnswers(e.j) && ColonFreeNames(e.j)
  }

  function PollOn(j: Job, s: Store): Progress
    requires j.Fits()
  {
    After(j, |j.signals|, Progress(s, map[], [], []))
  }

  ghost function Play(s: Store, events: seq<Event>): (Store, seq<Observed>)
    requires forall e :: e in events ==> Playable(e)
  {
    if events == [] then (s, [])
    else
      var last := events[|events| - 1];
      assert last in events && Playable(last);
      var (before, seen) := Play(s, events[..|events| - 1]);
      match last
      case Poll(j) =>
        var p := PollOn(j, before);
        (p.store, seen + [Polled(p.counts, p.posts, p.outcomes)])
      case Purge(source) =>
        (PurgeStore(before, source, true), seen + [Counted(PurgeRows(before, source))])
  }

  /** A history plays event by event: a poll is the engine's whole fold from empty
      counters, and a purge changes the store and reports its count. */
  lemma PlayAdds(s: Store, events: seq<Event>, e: Event)
    requires (forall x :: x in events ==> Playable(x)) && Playable(e)
    ensures forall x :: x in events + [e] ==> Playable(x)
    ensures var (before, seen) := Play(s, events);
      Play(s, events + [e]) ==
        match e
        case Poll(j) =>
          var p := After(j, |j.signals|, Progress(before, map[], [], []));
          (p.store, seen + [Polled(p.counts, p.posts, p.outcomes)])
        case Purge(source) =>
          (PurgeStore(before, source, true), seen + [Counted(PurgeRows(before, source))])
  {
    var more := events + [e];
    assert more[..|more| - 1] == events && more[|more| - 1] == e;
    assert forall x :: x in more ==> x in events || x == e;
  }

  /** From empty stores, every observation agrees: the counters, posts and
      outcomes of each run and the count of each purge; afterwards so do every
      Seen answer and every digest. */
  lemma {:induction false} StoresAgree(path: Option<Content>, events: seq<Event>)
    requires forall e :: e in events ==> Playable(e) && Fair(e)
    ensures var (a, seenA) := Play(InFile(FRESH, path), events);
      var (b, seenB) := Play(InSql(EMPTY), events);
      && seenA == seenB && Alike(a, b)
      && (forall t :: WellNamed(t) ==> (Marked(a, t) <==> Marked(b, t)))
      && (forall beacon, rows :: Lists(b.db, beacon, rows) ==>
            multiset(RowData(b.db, rows)) == multiset(Select(a.mem.findings, OfBeacon(beacon))))
      && (forall f :: f in a.mem.findings ==> IsSeen(a.mem, TripleOf(f)))
      && (forall i, j :: 0 <= i < j < |a.mem.findings| ==> TripleOf(a.mem.findings[i]) != TripleOf(a.mem.findings[j]))
  {
    if events != [] {
      var last := events[|events| - 1];
      assert last in events;
      var init := events[..|events| - 1];
      StoresAgree(path, init);
      var (a, seenA) := Play(InFile(FRESH, path), init);
      var (b, seenB) := Play(InSql(EMPTY), init);
      match last {
        case Poll(j) => RunAlike(j, |j.signals|, Progress(a, map[], [], []), Progress(b, map[], [], []));
        case Purge(source) => PurgeAlike(a.mem, b.db, source);
      }
    }
    var (a, seenA) := Play(InFile(FRESH, path), events);
    var (b, seenB) := Play(InSql(EMPTY), events);
    Consequences(a.mem, b.db);
  }

  lemma Consequences(st: State, db: Db)
    requires Same(st, db)
    ensures forall t :: WellNamed(t) ==> (IsSeen(st, t) <==> t in db.seen)
    ensures forall beacon, rows :: Lists(db, beacon, rows) ==>
      multiset(RowData(db, rows)) == multiset(Select(st.findings, OfBeacon(beacon)))
    ensures FindingsSeen(st)
  {
    forall t | WellNamed(t) ensures IsSeen(st, t) <==> t in db.seen {
      SameMarks(st, db, t);
    }
    forall beacon, rows | Lists(db, beacon, rows)
      ensures multiset(RowData(db, rows)) == multiset(Select(st.findings, OfBeacon(beacon)))
    {
      DigestsAgree(st, db, beacon, rows);
    }
    forall f | f in st.findings ensures IsSeen(st, TripleOf(f)) {
      assert TripleOf(f) in Triples(st.findings);
      SameMarks(st, db, TripleOf(f));
    }
  }

  // ----- which beacon names keep the stores alike

  /** A history of one beacon over the registered sources. */
  ghost predicate HistoryOf(beacon: string, events: seq<Event>) {
    forall e :: e in events ==>
      && Playable(e)
      && (e.Poll? ==>
            && StoreAnswers(e.j) && e.j.cfg.name == beacon
            && forall i :: 0 <= i < |e.j.signals| ==> e.j.signals[i].source in SOURCES)
  }

  /** One run that drops one signal, then a purge of the signal's source. */
  function DropThenPurge(beacon: string, source: string): seq<Event> {
    [Poll(Sample(beacon, source, "1", "noise")), Purge(source)]
  }

  lemma DropMarks(store: Store, beacon: string, source: string)
    requires store == InSql(EMPTY) || (store.InFile? && store.mem == FRESH)
    ensures var (_, seen) := Play(store, DropThenPurge(beacon, source));
      |seen| == 2 && seen[1] == Counted(PurgeRows(Do(store, Mark(Triple(beacon, source, "1")), true), source))
  {
    var events := DropThenPurge(beacon, source);
    var one := [events[0]];
    assert events[..1] == one && one[..0] == [];
    var p := PollOn(events[0].j, store);
    assert After(events[0].j, 0, Progress(store, map[], [], [])).store == store;
    assert !Marked(store, Triple(beacon, source, "1"));
    assert p.store == Do(store, Mark(Triple(beacon, source, "1")), true);
    var polled := Polled(p.counts, p.posts, p.outcomes);
    assert Play(store, one) == (p.store, [] + [polled]);
    assert [] + [polled] == [polled];
  }

  /** After one mark, a purge of its colon-free source finds the database's row
      always, and the file's key only when the key's second part is the source. */
  lemma MarkThenPurge(path: Option<Content>, t: Triple)
    requires ColonFree(t.source)
    ensures PurgeRows(Do(InSql(EMPTY), Mark(t), true), t.source) == 1
    ensures PurgeRows(Do(InFile(FRESH, path), Mark(t), true), t.source) ==
      if Middle(t.beacon, t.source) == t.source then 1 else 0
  {
    assert SeenRows(SqlApply(EMPTY, Mark(t)), t.source) == {t};
    assert FindingRows(SqlApply(EMPTY, Mark(t)), t.source) == {};
    PurgeReadsMiddle(t.beacon, t.source, t.id, t.source);
    var hits := HitKeys(Apply(FRESH, Mark(t)).seen, t.source);
    assert hits == if Middle(t.beacon, t.source) == t.source then {KeyOf(t)} else {};
  }

  /** The second colon-separated part of a name that has one. */
  function SecondPart(beacon: string): string
    requires !ColonFree(beacon)
  {
    Text.SplitFree(beacon, ':');
    Text.Split(beacon, ':')[1]
  }

  /** For every beacon name with a colon and every colon-free source other than
      the name's second part, one dropped signal and a purge tell the stores
      apart: the file finds nothing where the database finds the row. */
  lemma ColonNamesDisagree(path: Option<Content>, beacon: string, source: string)
    requires !ColonFree(beacon) && ColonFree(source) && source != SecondPart(beacon)
    ensures var seen := Play(InFile(FRESH, path), DropThenPurge(beacon, source)).1;
      |seen| == 2 && seen[1] == Counted(0)
    ensures var seen := Play(InSql(EMPTY), DropThenPurge(beacon, source)).1;
      |seen| == 2 && seen[1] == Counted(1)
  {
    DropMarks(InFile(FRESH, path), beacon, source);
    DropMarks(InSql(EMPTY), beacon, source);
    MarkThenPurge(path, Triple(beacon, source, "1"));
    Text.SplitFree(beacon, ':');
  }

  /** The names for which the stores are interchangeable: no history of a beacon
      over the registered sources tells them apart, exactly when its name has
      no colon. */
  lemma AgreeExactlyWithoutColon(path: Option<Content>, beacon: string)
    ensures ColonFree(beacon) <==> forall events | HistoryOf(beacon, events) ::
      Play(InFile(FRESH, path), events).1 == Play(InSql(EMPTY), events).1
  {
    if ColonFree(beacon) {
      forall events | HistoryOf(beacon, events)
        ensures Play(InFile(FRESH, path), events).1 == Play(InSql(EMPTY), events).1
      {
        forall e | e in events ensures Fair(e) {
        }
        StoresAgree(path, events);
      }
    } else {
      var source := if SecondPart(beacon) == "hn" then "reddit" else "hn";
      ColonNamesDisagree(path, beacon, source);
      assert HistoryOf(beacon, DropThenPurge(beacon, source));
    }
  }
}

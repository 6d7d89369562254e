/** What a store holds, independent of how it is kept: the in-memory state of
    the file store, the effect of each operation on it, and what a save file
    may contain. */
module StoreState {
  import opened Core
  import opened Keys

  datatype State = State(seen: map<string, bool>, findings: seq<Finding>, claims: map<string, string>)

  const FRESH := State(map[], [], map[])

  function TripleOf(f: Finding): Triple { Triple(f.beacon, f.signal.source, f.signal.id) }

  predicate Has(st: State, k: string) { k in st.seen && st.seen[k] }

  predicate IsSeen(st: State, t: Triple) { Has(st, KeyOf(t)) }

  datatype StoreOp =
    | Nothing
    | Mark(triple: Triple)
    | Rec(finding: Finding)
    | ClaimIt(findingId: string, claimant: string)

  function Apply(st: State, op: StoreOp): State {
    match op
    case Nothing => st
    case Mark(t) => st.(seen := st.seen[KeyOf(t) := true])
    case Rec(f) => st.(findings := st.findings + [f], seen := st.seen[KeyOf(TripleOf(f)) := true])
    case ClaimIt(id, who) => st.(claims := st.claims[id := who])
  }

  /** What an operation changes and what it leaves alone, key by key: a mark
      stays and only the operation's own key gains one; a finding goes to the
      end of the list; a claim replaces any earlier one of its finding only. */
  lemma ApplyMeans(st: State, op: StoreOp, k: string, id: string)
    ensures Has(Apply(st, op), k) <==>
      || Has(st, k)
      || (op.Mark? && k == Key(op.triple.beacon, op.triple.source, op.triple.id))
      || (op.Rec? && k == Key(op.finding.beacon, op.finding.signal.source, op.finding.signal.id))
    ensures Apply(st, op).findings == if op.Rec? then st.findings + [op.finding] else st.findings
    ensures var was, now := st.claims, Apply(st, op).claims;
      if op.ClaimIt? && op.findingId == id then id in now && now[id] == op.claimant
      else (id in now <==> id in was) && (id in was ==> now[id] == was[id])
  {
  }

  // ----- order-preserving selection

  function Select<T>(xs: seq<T>, keep: T -> bool): (r: seq<T>)
    ensures |r| <= |xs|
  {
    if xs == [] then []
    else Select(xs[..|xs| - 1], keep) + if keep(xs[|xs| - 1]) then [xs[|xs| - 1]] else []
  }

  function OfBeacon(beacon: string): Finding -> bool { (f: Finding) => f.beacon == beacon }

  function NotOfSource(source: string): Finding -> bool { (f: Finding) => f.signal.source != source }

  lemma SelectSnoc<T>(xs: seq<T>, x: T, keep: T -> bool)
    ensures Select(xs + [x], keep) == Select(xs, keep) + if keep(x) then [x] else []
  {
    assert (xs + [x])[..|xs|] == xs;
  }

  lemma {:induction false} SelectMembers<T>(xs: seq<T>, keep: T -> bool)
    ensures forall x :: x in Select(xs, keep) <==> x in xs && keep(x)
  {
    if xs != [] {
      SelectMembers(xs[..|xs| - 1], keep);
      assert xs == xs[..|xs| - 1] + [xs[|xs| - 1]];
    }
  }

  // ----- purge

  function PurgedSeen(seen: map<string, bool>, source: string): map<string, bool> {
    map k | k in seen && !PurgeHits(k, source) :: seen[k]
  }

  function HitKeys(seen: map<string, bool>, source: string): set<string> {
    set k | k in seen && PurgeHits(k, source)
  }

  function Purged(st: State, source: string): State {
    State(PurgedSeen(st.seen, source), Select(st.findings, NotOfSource(source)), st.claims)
  }

  function PurgeCount(st: State, source: string): nat {
    |HitKeys(st.seen, source)| + (|st.findings| - |Select(st.findings, NotOfSource(source))|)
  }

  /** The engine's invariant on the store: every recorded finding is marked. */
  ghost predicate FindingsSeen(st: State) {
    forall f :: f in st.findings ==> IsSeen(st, TripleOf(f))
  }

  ghost predicate FindingsWellNamed(st: State) {
    forall f :: f in st.findings ==> WellNamed(TripleOf(f))
  }

  /** A purge unmarks exactly the triples of its source, for every beacon; it
      drops exactly that source's findings and keeps the others in order; its
      count is the number of rows that went; marks still cover findings. */
  lemma PurgeExact(st: State, source: string, t: Triple)
    requires WellNamed(t)
    ensures IsSeen(Purged(st, source), t) <==> IsSeen(st, t) && t.source != source
    ensures forall f :: f in Purged(st, source).findings <==> f in st.findings && f.signal.source != source
    ensures PurgeCount(st, source) ==
      (|st.seen| - |Purged(st, source).seen|) + (|st.findings| - |Purged(st, source).findings|)
    ensures Purged(st, source).claims == st.claims
    ensures FindingsSeen(st) && FindingsWellNamed(st) ==>
      forall f :: f in Purged(st, source).findings ==> IsSeen(Purged(st, source), TripleOf(f))
  {
    PurgeTriple(st, source, t);
    SelectMembers(st.findings, NotOfSource(source));
    HitsAndRest(st.seen, source);
    if FindingsSeen(st) && FindingsWellNamed(st) {
      forall f | f in Purged(st, source).findings
        ensures IsSeen(Purged(st, source), TripleOf(f))
      {
        PurgeTriple(st, source, TripleOf(f));
      }
    }
  }

  lemma PurgeTriple(st: State, source: string, t: Triple)
    requires WellNamed(t)
    ensures IsSeen(Purged(st, source), t) <==> IsSeen(st, t) && t.source != source
  {
    PurgeReadsMiddle(t.beacon, t.source, t.id, source);
    MiddleOfWellNamed(t);
  }

  lemma MiddleOfWellNamed(t: Triple)
    requires WellNamed(t)
    ensures Middle(t.beacon, t.source) == t.source
  {
    Text.SplitFree(t.beacon, ':');
    Text.SplitFree(t.source, ':');
  }

  lemma HitsAndRest(seen: map<string, bool>, source: string)
    ensures |HitKeys(seen, source)| == |seen| - |PurgedSeen(seen, source)|
  {
    var rest := PurgedSeen(seen, source).Keys;
    assert seen.Keys == HitKeys(seen, source) + rest;
    assert HitKeys(seen, source) !! rest;
    assert |seen.Keys| == |HitKeys(seen, source)| + |rest|;
  }

  lemma {:induction false} SelectAll<T>(xs: seq<T>, keep: T -> bool)
    ensures |Select(xs, keep)| == |xs| ==> Select(xs, keep) == xs
    ensures (forall x :: x in xs ==> keep(x)) ==> Select(xs, keep) == xs
  {
    if xs != [] {
      SelectAll(xs[..|xs| - 1], keep);
      assert xs == xs[..|xs| - 1] + [xs[|xs| - 1]];
    }
  }

  /** A purge that reports nothing found nothing, and one purge is enough. */
  lemma PurgeSettles(st: State, source: string)
    ensures PurgeCount(st, source) == 0 <==> Purged(st, source) == st
    ensures PurgeCount(Purged(st, source), source) == 0
  {
    var kept := Select(st.findings, NotOfSource(source));
    SelectAll(st.findings, NotOfSource(source));
    SelectMembers(st.findings, NotOfSource(source));
    SelectAll(kept, NotOfSource(source));
    HitsAndRest(st.seen, source);
    assert HitKeys(PurgedSeen(st.seen, source), source) == {};
    if |HitKeys(st.seen, source)| == 0 {
      assert HitKeys(st.seen, source) == {};
      forall k | k in st.seen
        ensures !PurgeHits(k, source)
      {
        assert k !in HitKeys(st.seen, source);
      }
      assert PurgedSeen(st.seen, source) == st.seen;
    }
  }

  // ----- save files

  /** How far one save gets. `left` tells that removing the temporary file
      failed too; `Completes` is the only success. */
  datatype SaveStep =
    | MarshalFails
    | CreateFails
    | WriteFails(begun: bool, left: bool)
    | CloseFails(left: bool)
    | RenameFails(left: bool)
    | Completes

  /** The bytes of a file: empty, a torn prefix of a document, or a whole
      document. Null maps are possible in a document written elsewhere. */
  datatype Content =
    | Empty
    | Torn
    | Doc(seen: Option<map<string, bool>>, findings: seq<Finding>, claims: Option<map<string, string>>)

  function Encode(st: State): Content {
    Doc(Some(st.seen), st.findings, Some(st.claims))
  }

  predicate Whole(c: Option<Content>) { c.None? || !c.value.Torn? }

  /** What opening a whole file yields; absent or empty means a fresh store. */
  function Load(c: Option<Content>): State
    requires Whole(c)
  {
    if c.None? || c.value.Empty? then FRESH
    else State(
      if c.value.seen.None? then map[] else c.value.seen.value,
      c.value.findings,
      if c.value.claims.None? then map[] else c.value.claims.value)
  }

  /** What opening finds in a file: nothing in an absent or empty one; in a
      document its marks, findings and claims, with a null map for none. Only a
      torn document cannot be opened, and saving writes what opening finds. */
  lemma LoadMeans(c: Option<Content>)
    ensures !Whole(c) <==> c == Some(Torn)
    ensures c == None || c == Some(Empty) ==> Load(c).seen == map[] && Load(c).findings == [] && Load(c).claims == map[]
    ensures c.Some? && c.value.Doc? ==>
      && Load(c).findings == c.value.findings
      && Load(c).seen == (match c.value.seen case Some(m) => m case None => map[])
      && Load(c).claims == (match c.value.claims case Some(m) => m case None => map[])
    ensures forall st :: Whole(Some(Encode(st))) && Load(Some(Encode(st))) == st
  {
  }
}

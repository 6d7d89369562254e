/** Delivery accounting over whole histories of the running program: any number
    of beacon loops on one store in any interleaving, calls that fail, and
    crashes between any two steps followed by a restart. */
module History {
  import opened Core
  import opened Keys
  import opened StoreState
  import opened Backend
  import opened Engine
  import opened Interleave

  /** One step of loop i, or the process ends wherever it is and another one
      starts with loops of its own. An end inside a save is one before or after
      the storing step, since the path holds the old or the new content; so is
      one inside a transaction. */
  datatype Event = Turn(i: nat) | Reboot(loops: seq<Local>)

  /** `posts` counts the successful deliveries under each row. `here` holds the
      rows posted by the running process whose mark has not failed. `losses`
      counts the posts whose mark was lost: for the database a record that
      failed, for either store a restart that found no lasting mark. */
  datatype World = World(store: Store, loops: seq<Local>, here: set<Row>, posts: multiset<Row>, losses: multiset<Row>)

  predicate Sound(s: Store) { s.InFile? ==> Whole(s.path) }

  /** The row is marked for good: a restart would find it. */
  predicate Lasting(s: Store, r: Row) { Sound(s) && HasRow(Reopen(s), r) }

  function RowFor(flat: bool, t: Task): Row
    requires t.Handle?
  {
    RowOf(flat, TripleFor(t))
  }

  /** The loop is handling a signal with this row. */
  predicate HandlesNow(flat: bool, l: Local, r: Row) {
    !Done(l) && l.tasks[l.pos].Handle? && RowFor(flat, l.tasks[l.pos]) == r
  }

  /** The loop is about to post with success. */
  predicate Aims(flat: bool, l: Local, r: Row) {
    HandlesNow(flat, l, r) && l.phase.Posting? && l.phase.o.Delivered?
  }

  /** The loop has posted and is about to record. */
  predicate Owes(flat: bool, l: Local, r: Row) {
    HandlesNow(flat, l, r) && l.phase.Storing? && l.phase.o.Delivered?
  }

  /** The rows the loop's next step posts, and those whose record it fails to
      bring into effect. */
  function Sends(flat: bool, l: Local): set<Row> {
    if !Done(l) && l.tasks[l.pos].Handle? && Aims(flat, l, RowFor(flat, l.tasks[l.pos]))
    then {RowFor(flat, l.tasks[l.pos])} else {}
  }

  function Misses(flat: bool, l: Local): set<Row> {
    if !Done(l) && l.tasks[l.pos].Handle? && Owes(flat, l, RowFor(flat, l.tasks[l.pos]))
       && !Lands(flat, l.tasks[l.pos].fate.save.Completes?)
    then {RowFor(flat, l.tasks[l.pos])} else {}
  }

  function Lost(w: World): set<Row> { set r | r in w.here && !Lasting(w.store, r) }

  predicate Enabled(w: World, e: Event) {
    Sound(w.store) &&
    match e
    case Turn(i) => i < |w.loops|
    case Reboot(loops) => forall k :: 0 <= k < |loops| ==> loops[k].phase.Looking?
  }

  function Next(w: World, e: Event): World
    requires Enabled(w, e)
  {
    match e
    case Turn(i) =>
      var (s, l) := Tick(w.store, w.loops[i]);
      var sent, missed := Sends(w.store.InFile?, w.loops[i]), Misses(w.store.InFile?, w.loops[i]);
      World(s, w.loops[i := l], w.here + sent - missed, w.posts + multiset(sent), w.losses + multiset(missed))
    case Reboot(loops) =>
      World(Reopen(w.store), loops, {}, w.posts, w.losses + multiset(Lost(w)))
  }

  /** A reboot forgets whatever is not in the file or the database, and counts as
      lost exactly the rows posted by the ended process that are not found. */
  lemma RebootMeans(w: World, loops: seq<Local>, r: Row)
    requires Enabled(w, Reboot(loops))
    ensures var v := Next(w, Reboot(loops));
      && v.loops == loops && v.here == {} && v.posts == w.posts
      && v.losses[r] == w.losses[r] + (if r in w.here && !HasRow(v.store, r) then 1 else 0)
      && (w.store.InSql? ==> v.store == w.store)
      && (w.store.InFile? ==> v.store == InFile(Load(w.store.path), w.store.path))
  {
    assert multiset(Lost(w))[r] == if r in Lost(w) then 1 else 0;
  }

  /** A turn is one step of the loop. It counts a delivery for exactly the row
      whose accepted post it makes, and a loss for exactly the row whose post it
      fails to record in the database. */
  lemma TurnMeans(w: World, i: nat, r: Row)
    requires Enabled(w, Turn(i))
    ensures var l, v, flat := w.loops[i], Next(w, Turn(i)), w.store.InFile?;
      var mine := l.pos < |l.tasks| && l.tasks[l.pos].Handle?
        && r == RowOf(flat, Triple(l.tasks[l.pos].cfg.name, l.tasks[l.pos].s.source, l.tasks[l.pos].s.id));
      var sends := mine && l.phase.Posting? && l.phase.o.Delivered?;
      var misses := mine && l.phase.Storing? && l.phase.o.Delivered? && !flat && !l.tasks[l.pos].fate.save.Completes?;
      && (v.store, v.loops) == (Tick(w.store, l).0, w.loops[i := Tick(w.store, l).1])
      && v.posts[r] == w.posts[r] + (if sends then 1 else 0)
      && v.losses[r] == w.losses[r] + (if misses then 1 else 0)
      && (r in v.here <==> (r in w.here || sends) && !misses)
  {
  }

  /** One behavior: the worlds before, between and after the events. */
  ghost predicate Behavior(ws: seq<World>, events: seq<Event>) {
    |ws| == |events| + 1 && forall i :: 0 <= i < |events| ==> StepAt(ws, events, i)
  }

  ghost predicate StepAt(ws: seq<World>, events: seq<Event>, i: nat)
    requires i < |events| && i + 1 < |ws|
  {
    Enabled(ws[i], events[i]) && ws[i + 1] == Next(ws[i], events[i])
  }

  lemma Extended(ws: seq<World>, events: seq<Event>, e: Event) returns (more: seq<World>)
    requires Behavior(ws, events) && Enabled(ws[|events|], e)
    ensures more == ws + [Next(ws[|events|], e)] && Behavior(more, events + [e])
  {
    more := ws + [Next(ws[|events|], e)];
    forall i | 0 <= i < |events + [e]| ensures StepAt(more, events + [e], i) {
      if i < |events| {
        assert StepAt(ws, events, i);
      }
    }
  }

  lemma TwoMore(ws: seq<World>, events: seq<Event>, e: Event, f: Event) returns (more: seq<World>, all: seq<Event>)
    requires Behavior(ws, events) && Enabled(ws[|events|], e) && Enabled(Next(ws[|events|], e), f)
    ensures all == events + [e, f] && Behavior(more, all) && more[0] == ws[0]
    ensures more[|all|] == Next(Next(ws[|events|], e), f)
  {
    more := Extended(ws, events, e);
    all := events + [e];
    more := Extended(more, all, f);
    all := all + [f];
  }

  /** A process that has just opened a store. */
  predicate Begun(w: World) {
    && Sound(w.store) && Reopen(w.store) == w.store
    && w.here == {} && w.posts == multiset{} && w.losses == multiset{}
    && forall k :: 0 <= k < |w.loops| ==> w.loops[k].phase.Looking? && w.loops[k].posts == []
  }

  // ----- loops that never share a row

  ghost predicate Handles(flat: bool, l: Local, r: Row) {
    exists a :: 0 <= a < |l.tasks| && l.tasks[a].Handle? && RowFor(flat, l.tasks[a]) == r
  }

  ghost predicate Separate(flat: bool, loops: seq<Local>) {
    forall i, j, r :: 0 <= i < |loops| && 0 <= j < |loops| && i != j && Handles(flat, loops[i], r) ==>
      !Handles(flat, loops[j], r)
  }

  lemma HandlesOwn(flat: bool, l: Local, beacon: string, sources: iset<string>, r: Row)
    requires Belongs(l, beacon, sources) && Handles(flat, l, r)
    ensures OwnRow(flat, r, beacon, sources)
  {
    var a :| 0 <= a < |l.tasks| && l.tasks[a].Handle? && RowFor(flat, l.tasks[a]) == r;
    var x := l.tasks[a].s;
    assert r == RowOf(flat, Triple(beacon, x.source, x.id));
  }

  lemma SharedRowMeets(flat: bool, x: Local, y: Local, b: string, c: string, sources: iset<string>, r: Row)
    requires Belongs(x, b, sources) && Belongs(y, c, sources) && Handles(flat, x, r) && Handles(flat, y, r)
    ensures RowsMeet(flat, b, c, sources)
  {
    HandlesOwn(flat, x, b, sources, r);
    HandlesOwn(flat, y, c, sources, r);
  }

  /** Loops of beacons whose rows never meet never share one. */
  lemma NamesSeparate(flat: bool, loops: seq<Local>, names: seq<string>, sources: iset<string>)
    requires Strangers(flat, loops, names, sources)
    ensures Separate(flat, loops)
  {
    forall i, j, r | 0 <= i < |loops| && 0 <= j < |loops| && i != j && Handles(flat, loops[i], r)
      ensures !Handles(flat, loops[j], r)
    {
      if Handles(flat, loops[j], r) {
        SharedRowMeets(flat, loops[i], loops[j], names[i], names[j], sources, r);
      }
    }
  }

  // ----- the invariant

  /** What one step of a loop does to the marks of one row, and what it says
      about the loop. */
  lemma TickMarks(s: Store, l: Local, r: Row)
    requires Sound(s)
    ensures var (s', l') := Tick(s, l);
      var flat := s.InFile?;
      && Sound(s') && s'.InFile? == flat && l'.tasks == l.tasks
      && (HasRow(s, r) ==> HasRow(s', r))
      && (HasRow(s', r) ==> HasRow(s, r) || HandlesNow(flat, l, r))
      && (Lasting(s', r) ==> Lasting(s, r) || HasRow(s', r))
      && (Lasting(s, r) && HasRow(s, r) ==> Lasting(s', r))
      && (Aims(flat, l', r) ==> !HasRow(s', r))
      && (Owes(flat, l', r) <==> Aims(flat, l, r))
      && (r in Sends(flat, l) <==> Aims(flat, l, r))
      && (r in Misses(flat, l) ==> Owes(flat, l, r))
      && (Owes(flat, l, r) ==> HasRow(s', r) || r in Misses(flat, l))
  {
  }

  /** The running store knows every lasting mark; it knows every row posted here,
      or the loop that posted it is about to record it; a loop about to post has
      an unmarked row; a row counts one delivery more than its losses only while
      it is posted here or marked for good. */
  ghost predicate Inv(w: World, r: Row) {
    var flat := w.store.InFile?;
    && Sound(w.store) && Separate(flat, w.loops)
    && (Lasting(w.store, r) ==> HasRow(w.store, r))
    && (r in w.here ==> HasRow(w.store, r) || exists i :: 0 <= i < |w.loops| && Owes(flat, w.loops[i], r))
    && (forall i :: 0 <= i < |w.loops| && Aims(flat, w.loops[i], r) ==> !HasRow(w.store, r))
    && w.posts[r] <= w.losses[r] + if r in w.here || Lasting(w.store, r) then 1 else 0
  }

  lemma OnlyOneNow(flat: bool, loops: seq<Local>, i: nat, j: nat, r: Row)
    requires Separate(flat, loops) && i < |loops| && j < |loops|
    requires HandlesNow(flat, loops[i], r) && HandlesNow(flat, loops[j], r)
    ensures i == j
  {
    assert Handles(flat, loops[i], r) && Handles(flat, loops[j], r);
  }

  lemma SeparateStays(flat: bool, loops: seq<Local>, i: nat, l: Local)
    requires Separate(flat, loops) && i < |loops| && l.tasks == loops[i].tasks
    ensures Separate(flat, loops[i := l])
  {
    var after := loops[i := l];
    assert forall j, r :: 0 <= j < |loops| ==> (Handles(flat, after[j], r) <==> Handles(flat, loops[j], r));
  }

  lemma AimedNotHere(w: World, i: nat, r: Row)
    requires Inv(w, r) && i < |w.loops| && Aims(w.store.InFile?, w.loops[i], r)
    ensures r !in w.here
  {
    if j :| 0 <= j < |w.loops| && Owes(w.store.InFile?, w.loops[j], r) {
      OnlyOneNow(w.store.InFile?, w.loops, i, j, r);
    }
  }

  lemma TurnKeepsInv(w: World, i: nat, r: Row)
    requires Inv(w, r) && i < |w.loops|
    ensures Inv(Next(w, Turn(i)), r)
  {
    var (s, l) := Tick(w.store, w.loops[i]);
    var flat, v := w.store.InFile?, Next(w, Turn(i));
    TickMarks(w.store, w.loops[i], r);
    SeparateStays(flat, w.loops, i, l);
    if Aims(flat, w.loops[i], r) {
      AimedNotHere(w, i, r);
      assert Owes(flat, v.loops[i], r);
    } else if r in v.here && !HasRow(s, r) {
      var j :| 0 <= j < |w.loops| && Owes(flat, w.loops[j], r);
      assert j != i && Owes(flat, v.loops[j], r);
    }
    forall j | 0 <= j < |v.loops| && Aims(flat, v.loops[j], r)
      ensures !HasRow(s, r)
    {
      if j != i && HandlesNow(flat, w.loops[i], r) { OnlyOneNow(flat, w.loops, i, j, r); }
    }
  }

  lemma RebootKeepsInv(w: World, loops: seq<Local>, r: Row)
    requires Inv(w, r) && Enabled(w, Reboot(loops)) && Separate(w.store.InFile?, loops)
    ensures Inv(Next(w, Reboot(loops)), r)
  {
    assert multiset(Lost(w))[r] == if r in w.here && !Lasting(w.store, r) then 1 else 0;
  }

  ghost predicate SeparateEvent(flat: bool, e: Event) { e.Reboot? ==> Separate(flat, e.loops) }

  lemma NextKeepsKind(w: World, e: Event)
    requires Enabled(w, e)
    ensures Next(w, e).store.InFile? == w.store.InFile?
  {
  }

  lemma {:induction false} InvHolds(ws: seq<World>, events: seq<Event>, n: nat, r: Row)
    requires Behavior(ws, events) && n <= |events| && Inv(ws[0], r)
    requires forall i :: 0 <= i < |events| ==> SeparateEvent(ws[0].store.InFile?, events[i])
    ensures Inv(ws[n], r) && ws[n].store.InFile? == ws[0].store.InFile?
  {
    if n > 0 {
      InvHolds(ws, events, n - 1, r);
      assert StepAt(ws, events, n - 1) && SeparateEvent(ws[0].store.InFile?, events[n - 1]);
      NextKeepsKind(ws[n - 1], events[n - 1]);
      match events[n - 1]
      case Turn(i) => TurnKeepsInv(ws[n - 1], i, r);
      case Reboot(loops) => RebootKeepsInv(ws[n - 1], loops, r);
    }
  }

  // ----- the bound

  /** At every point of any history of loops that share no row, on either store,
      a row has been delivered at most once more than its mark was lost, and
      never if it was marked for good at the start. */
  lemma DeliveryBound(ws: seq<World>, events: seq<Event>, n: nat, r: Row)
    requires Behavior(ws, events) && Begun(ws[0]) && n <= |events| && Separate(ws[0].store.InFile?, ws[0].loops)
    requires forall i :: 0 <= i < |events| ==> SeparateEvent(ws[0].store.InFile?, events[i])
    ensures ws[n].posts[r] <= ws[n].losses[r] + 1
    ensures Lasting(ws[0].store, r) ==> ws[n].posts[r] == 0
  {
    InvHolds(ws, events, n, r);
    if Lasting(ws[0].store, r) {
      MarkedNeverPosted(ws, events, n, r);
    }
  }

  /** Losses are never invented: each is the loss of a delivery's mark. */
  ghost predicate LossesPaid(w: World, r: Row) {
    && w.losses[r] + (if r in w.here then 1 else 0) <= w.posts[r]
    && forall i :: 0 <= i < |w.loops| && Owes(w.store.InFile?, w.loops[i], r) ==> r in w.here
  }

  lemma TurnKeepsPaid(w: World, i: nat, r: Row)
    requires Inv(w, r) && LossesPaid(w, r) && i < |w.loops|
    ensures LossesPaid(Next(w, Turn(i)), r)
  {
    var flat, v := w.store.InFile?, Next(w, Turn(i));
    TickMarks(w.store, w.loops[i], r);
    TurnMeans(w, i, r);
    if Aims(flat, w.loops[i], r) {
      AimedNotHere(w, i, r);
    }
    forall j | 0 <= j < |v.loops| && Owes(flat, v.loops[j], r)
      ensures r in v.here
    {
      if j != i && HandlesNow(flat, w.loops[i], r) { OnlyOneNow(flat, w.loops, i, j, r); }
    }
  }

  lemma RebootKeepsPaid(w: World, loops: seq<Local>, r: Row)
    requires LossesPaid(w, r) && Enabled(w, Reboot(loops))
    ensures LossesPaid(Next(w, Reboot(loops)), r)
  {
    RebootMeans(w, loops, r);
  }

  /** A row's losses never exceed its deliveries; with DeliveryBound the two
      differ by at most one. */
  lemma {:induction false} LossesAreReal(ws: seq<World>, events: seq<Event>, n: nat, r: Row)
    requires Behavior(ws, events) && Begun(ws[0]) && n <= |events| && Separate(ws[0].store.InFile?, ws[0].loops)
    requires forall i :: 0 <= i < |events| ==> SeparateEvent(ws[0].store.InFile?, events[i])
    ensures LossesPaid(ws[n], r) && ws[n].losses[r] <= ws[n].posts[r]
  {
    if n > 0 {
      LossesAreReal(ws, events, n - 1, r);
      InvHolds(ws, events, n - 1, r);
      assert StepAt(ws, events, n - 1);
      match events[n - 1]
      case Turn(i) => TurnKeepsPaid(ws[n - 1], i, r);
      case Reboot(loops) => RebootKeepsPaid(ws[n - 1], loops, r);
    }
  }

  /** A row marked in the process and for good, at which no loop aims. */
  ghost predicate Settled(w: World, r: Row) {
    && HasRow(w.store, r) && Lasting(w.store, r)
    && forall i :: 0 <= i < |w.loops| ==> !Aims(w.store.InFile?, w.loops[i], r)
  }

  lemma StepKeepsSettled(w: World, e: Event, r: Row)
    requires Enabled(w, e) && Settled(w, r)
    ensures Settled(Next(w, e), r) && Next(w, e).posts[r] == w.posts[r]
  {
    if e.Turn? {
      TickMarks(w.store, w.loops[e.i], r);
    }
  }

  lemma {:induction false} MarkedNeverPosted(ws: seq<World>, events: seq<Event>, n: nat, r: Row)
    requires Behavior(ws, events) && n <= |events| && Settled(ws[0], r)
    ensures Settled(ws[n], r) && ws[n].posts[r] == ws[0].posts[r]
  {
    if n > 0 {
      MarkedNeverPosted(ws, events, n - 1, r);
      assert StepAt(ws, events, n - 1);
      StepKeepsSettled(ws[n - 1], events[n - 1], r);
    }
  }

  // ----- one process

  function RowsOf(flat: bool, posts: seq<Finding>): seq<Row> {
    seq(|posts|, i requires 0 <= i < |posts| => RowOf(flat, TripleOf(posts[i])))
  }

  function Times(flat: bool, posts: seq<Finding>, r: Row): nat { multiset(RowsOf(flat, posts))[r] }

  /** How often the loops have posted under a row. */
  function Sent(flat: bool, loops: seq<Local>, r: Row): nat {
    if loops == [] then 0
    else Sent(flat, loops[..|loops| - 1], r) + Times(flat, loops[|loops| - 1].posts, r)
  }

  lemma {:induction false} SentUpdate(flat: bool, loops: seq<Local>, i: nat, l: Local, r: Row)
    requires i < |loops|
    ensures Sent(flat, loops[i := l], r) + Times(flat, loops[i].posts, r)
         == Sent(flat, loops, r) + Times(flat, l.posts, r)
  {
    var n, after := |loops| - 1, loops[i := l];
    if i < n {
      SentUpdate(flat, loops[..n], i, l, r);
      assert after[..n] == loops[..n][i := l];
    } else {
      assert after[..n] == loops[..n];
    }
  }

  lemma TickSends(s: Store, flat: bool, l: Local, r: Row)
    ensures Times(flat, Tick(s, l).1.posts, r) == Times(flat, l.posts, r) + if r in Sends(flat, l) then 1 else 0
  {
    var l' := Tick(s, l).1;
    if l'.posts != l.posts {
      var t := l.tasks[l.pos];
      assert l'.posts == l.posts + [Finding(t.cfg.name, t.s, l.phase.o.v)];
      assert RowsOf(flat, l'.posts) == RowsOf(flat, l.posts) + [RowFor(flat, t)];
      assert Sends(flat, l) == {RowFor(flat, t)};
    }
  }

  /** While one process runs, its deliveries are its loops' posts. */
  ghost predicate Tallies(w: World, v: World, r: Row) {
    var flat := w.store.InFile?;
    && v.store.InFile? == flat
    && v.posts[r] + Sent(flat, w.loops, r) == w.posts[r] + Sent(flat, v.loops, r)
  }

  lemma TurnTallies(w: World, v: World, i: nat, r: Row)
    requires Tallies(w, v, r) && Enabled(v, Turn(i))
    ensures Tallies(w, Next(v, Turn(i)), r)
  {
    SentUpdate(w.store.InFile?, v.loops, i, Tick(v.store, v.loops[i]).1, r);
    TickSends(v.store, w.store.InFile?, v.loops[i], r);
    NextKeepsKind(v, Turn(i));
  }

  lemma {:induction false} TurnsTally(ws: seq<World>, events: seq<Event>, n: nat, r: Row)
    requires Behavior(ws, events) && n <= |events| && forall i :: 0 <= i < |events| ==> events[i].Turn?
    ensures Tallies(ws[0], ws[n], r)
  {
    if n > 0 {
      TurnsTally(ws, events, n - 1, r);
      assert StepAt(ws, events, n - 1);
      TurnTallies(ws[0], ws[n - 1], events[n - 1].i, r);
    }
  }

  /** Every record takes effect: always on the file store, on the database when
      no write of these loops fails. */
  predicate WritesLand(flat: bool, loops: seq<Local>) {
    forall k, a :: 0 <= k < |loops| && 0 <= a < |loops[k].tasks| && loops[k].tasks[a].Handle? ==>
      Lands(flat, loops[k].tasks[a].fate.save.Completes?)
  }

  lemma TurnLosesNone(w: World, i: nat)
    requires Enabled(w, Turn(i)) && WritesLand(w.store.InFile?, w.loops)
    ensures Next(w, Turn(i)).losses == w.losses
    ensures WritesLand(Next(w, Turn(i)).store.InFile?, Next(w, Turn(i)).loops)
  {
    TickKeeps(w.store, w.loops[i]);
    assert Misses(w.store.InFile?, w.loops[i]) == {};
  }

  lemma {:induction false} NoneLost(ws: seq<World>, events: seq<Event>, n: nat)
    requires Behavior(ws, events) && n <= |events| && forall i :: 0 <= i < |events| ==> events[i].Turn?
    requires WritesLand(ws[0].store.InFile?, ws[0].loops)
    ensures ws[n].losses == ws[0].losses && WritesLand(ws[n].store.InFile?, ws[n].loops)
  {
    if n > 0 {
      NoneLost(ws, events, n - 1);
      assert StepAt(ws, events, n - 1);
      TurnLosesNone(ws[n - 1], events[n - 1].i);
    }
  }

  /** The events are the turns of a schedule. */
  ghost predicate TurnsOnly(events: seq<Event>, schedule: seq<nat>) {
    |schedule| == |events| && forall i :: 0 <= i < |events| ==> events[i] == Turn(schedule[i])
  }

  ghost predicate Matches(w: World, at: (Store, seq<Local>)) { w.store == at.0 && w.loops == at.1 }

  lemma TurnMatches(w: World, s: Store, loops: seq<Local>, schedule: seq<nat>, i: nat)
    requires InRange(schedule, |loops|) && Matches(w, Together(s, loops, schedule)) && Enabled(w, Turn(i))
    ensures InRange(schedule + [i], |loops|) && Matches(Next(w, Turn(i)), Together(s, loops, schedule + [i]))
  {
    TogetherAdds(s, loops, schedule, i);
  }

  /** Until the process ends a history is Interleave's machine. */
  lemma {:induction false} TurnsAreTogether(ws: seq<World>, events: seq<Event>, schedule: seq<nat>, n: nat)
    requires Behavior(ws, events) && TurnsOnly(events, schedule) && n <= |events|
    ensures InRange(schedule[..n], |ws[0].loops|) && Matches(ws[n], Together(ws[0].store, ws[0].loops, schedule[..n]))
  {
    if n > 0 {
      TurnsAreTogether(ws, events, schedule, n - 1);
      assert StepAt(ws, events, n - 1) && events[n - 1] == Turn(schedule[n - 1]);
      assert schedule[..n] == schedule[..n - 1] + [schedule[n - 1]];
      TurnMatches(ws[n - 1], ws[0].store, ws[0].loops, schedule[..n - 1], schedule[n - 1]);
    }
  }

  lemma {:induction false} NothingSent(flat: bool, loops: seq<Local>, r: Row)
    requires forall i :: 0 <= i < |loops| ==> loops[i].posts == []
    ensures Sent(flat, loops, r) == 0
  {
    if loops != [] {
      NothingSent(flat, loops[..|loops| - 1], r);
    }
  }

  /** The posts of one loop, or of two different ones, are among those sent. */
  lemma {:induction false} SentBy(flat: bool, loops: seq<Local>, i: nat, r: Row)
    requires i < |loops|
    ensures Sent(flat, loops, r) >= Times(flat, loops[i].posts, r)
  {
    var n := |loops| - 1;
    if i < n {
      SentBy(flat, loops[..n], i, r);
    }
  }

  lemma {:induction false} SentByTwo(flat: bool, loops: seq<Local>, i: nat, j: nat, r: Row)
    requires i < j < |loops|
    ensures Sent(flat, loops, r) >= Times(flat, loops[i].posts, r) + Times(flat, loops[j].posts, r)
  {
    var n := |loops| - 1;
    if j < n {
      SentByTwo(flat, loops[..n], i, j, r);
    } else {
      SentBy(flat, loops[..n], i, r);
    }
  }

  lemma PostCounts(flat: bool, posts: seq<Finding>, p: nat, q: nat, r: Row)
    requires p <= q < |posts| && RowOf(flat, TripleOf(posts[p])) == r == RowOf(flat, TripleOf(posts[q]))
    ensures Times(flat, posts, r) >= if p == q then 1 else 2
  {
    var rows := RowsOf(flat, posts);
    assert rows == rows[..q] + rows[q..];
    assert rows[q] == rows[q..][0];
    assert p < q ==> rows[p] == rows[..q][p];
  }

  /** Two posts of the same triple, wherever they are, are two deliveries. */
  lemma SentTwice(flat: bool, loops: seq<Local>, i: nat, p: nat, j: nat, q: nat)
    requires i < |loops| && p < |loops[i].posts| && j < |loops| && q < |loops[j].posts| && (i, p) != (j, q)
    requires TripleOf(loops[i].posts[p]) == TripleOf(loops[j].posts[q])
    ensures Sent(flat, loops, RowOf(flat, TripleOf(loops[i].posts[p]))) >= 2
  {
    var r := RowOf(flat, TripleOf(loops[i].posts[p]));
    if i == j {
      PostCounts(flat, loops[i].posts, if p < q then p else q, if p < q then q else p, r);
      SentBy(flat, loops, i, r);
    } else {
      PostCounts(flat, loops[i].posts, p, p, r);
      PostCounts(flat, loops[j].posts, q, q, r);
      SentByTwo(flat, loops, if i < j then i else j, if i < j then j else i, r);
    }
  }

  lemma OneDelivery(ws: seq<World>, events: seq<Event>, schedule: seq<nat>, n: nat, r: Row)
    requires Behavior(ws, events) && Begun(ws[0]) && n <= |events| && TurnsOnly(events, schedule)
    requires Separate(ws[0].store.InFile?, ws[0].loops) && WritesLand(ws[0].store.InFile?, ws[0].loops)
    ensures ws[n].posts[r] == Sent(ws[0].store.InFile?, ws[n].loops, r) <= 1
  {
    TurnsTally(ws, events, n, r);
    NoneLost(ws, events, n);
    DeliveryBound(ws, events, n, r);
    NothingSent(ws[0].store.InFile?, ws[0].loops, r);
  }

  /** Within one process whose records take effect, on the file store always and
      whichever saves fail, and however its loops interleave, a row is delivered
      at most once: no two posts, of one loop or of two, carry the same triple. */
  lemma OncePerProcess(ws: seq<World>, events: seq<Event>, schedule: seq<nat>, n: nat)
    requires Behavior(ws, events) && Begun(ws[0]) && n <= |events| && TurnsOnly(events, schedule)
    requires Separate(ws[0].store.InFile?, ws[0].loops) && WritesLand(ws[0].store.InFile?, ws[0].loops)
    ensures forall r :: ws[n].posts[r] <= 1
    ensures forall i, p, j, q | 0 <= i < |ws[n].loops| && 0 <= j < |ws[n].loops| && (i, p) != (j, q) ::
      0 <= p < |ws[n].loops[i].posts| && 0 <= q < |ws[n].loops[j].posts| ==>
        TripleOf(ws[n].loops[i].posts[p]) != TripleOf(ws[n].loops[j].posts[q])
  {
    var flat, loops := ws[0].store.InFile?, ws[n].loops;
    forall r ensures ws[n].posts[r] == Sent(flat, loops, r) <= 1 {
      OneDelivery(ws, events, schedule, n, r);
    }
    forall i, p, j, q |
      0 <= i < |loops| && 0 <= j < |loops| && (i, p) != (j, q) && 0 <= p < |loops[i].posts| && 0 <= q < |loops[j].posts|
      ensures TripleOf(loops[i].posts[p]) != TripleOf(loops[j].posts[q])
    {
      if TripleOf(loops[i].posts[p]) == TripleOf(loops[j].posts[q]) {
        SentTwice(flat, loops, i, p, j, q);
      }
    }
  }

  // ----- two loops that do share a row

  /** Two fresh loops that handle one sample signal each. */
  function Pair(flat: bool, x: Task, y: Task): World {
    World(NewStore(flat), [NewLoop([x]), NewLoop([y])], {}, multiset{}, multiset{})
  }

  lemma TurnSound(w: World, i: nat)
    requires Enabled(w, Turn(i))
    ensures Sound(Next(w, Turn(i)).store) && |Next(w, Turn(i)).loops| == |w.loops|
    ensures Next(w, Turn(i)).store.InFile? == w.store.InFile?
  {
    TickMarks(w.store, w.loops[i], Flat(""));
  }

  function BothTurn(w: World): World
    requires Sound(w.store) && |w.loops| == 2
  {
    TurnSound(w, 0);
    Next(Next(w, Turn(0)), Turn(1))
  }

  lemma BothLook(flat: bool, t: Triple, u: Triple)
    requires RowOf(flat, t) == RowOf(flat, u)
    ensures var w, r := BothTurn(Pair(flat, SampleTask(t, "lead"), SampleTask(u, "lead"))), RowOf(flat, t);
      && Sound(w.store) && w.store.InFile? == flat && |w.loops| == 2 && w.posts == multiset{}
      && Aims(flat, w.loops[0], r) && Aims(flat, w.loops[1], r)
  {
    assert !Marked(NewStore(flat), t) && !Marked(NewStore(flat), u);
  }

  lemma BothPost(w: World, r: Row)
    requires Sound(w.store) && |w.loops| == 2 && w.posts == multiset{}
    requires Aims(w.store.InFile?, w.loops[0], r) && Aims(w.store.InFile?, w.loops[1], r)
    ensures BothTurn(w).posts[r] == 2
  {
    assert Sends(w.store.InFile?, w.loops[0]) == {r} == Sends(w.store.InFile?, w.loops[1]);
    TurnSound(w, 0);
  }

  lemma FourTurns(w: World) returns (ws: seq<World>, events: seq<Event>)
    requires Sound(w.store) && |w.loops| == 2
    ensures Behavior(ws, events) && TurnsOnly(events, [0, 1, 0, 1]) && ws[0] == w
    ensures Sound(BothTurn(w).store) && |BothTurn(w).loops| == 2 && ws[4] == BothTurn(BothTurn(w))
  {
    TurnSound(w, 0);
    TurnSound(Next(w, Turn(0)), 1);
    ws, events := TwoMore([w], [], Turn(0), Turn(1));
    TurnSound(BothTurn(w), 0);
    ws, events := TwoMore(ws, events, Turn(0), Turn(1));
  }

  /** Both loops look before either records, so the shared row is delivered
      twice by one process. */
  lemma SharedRowPostsTwice(flat: bool, t: Triple, u: Triple) returns (ws: seq<World>, events: seq<Event>)
    requires RowOf(flat, t) == RowOf(flat, u)
    ensures Behavior(ws, events) && TurnsOnly(events, [0, 1, 0, 1])
    ensures ws[0] == Pair(flat, SampleTask(t, "lead"), SampleTask(u, "lead"))
    ensures ws[4].posts[RowOf(flat, t)] == 2
  {
    ws, events := FourTurns(Pair(flat, SampleTask(t, "lead"), SampleTask(u, "lead")));
    BothLook(flat, t, u);
    BothPost(BothTurn(ws[0]), RowOf(flat, t));
  }

  /** A process with two loops on this kind of store, one for each of these
      beacons, whose records take effect. */
  ghost predicate TwoLoops(flat: bool, ws: seq<World>, events: seq<Event>, schedule: seq<nat>,
                           b: string, c: string, sources: iset<string>)
  {
    && Behavior(ws, events) && Begun(ws[0]) && TurnsOnly(events, schedule)
    && ws[0].store.InFile? == flat && WritesLand(flat, ws[0].loops) && |ws[0].loops| == 2
    && Belongs(ws[0].loops[0], b, sources) && Belongs(ws[0].loops[1], c, sources)
  }

  /** Whatever signals of these sources two loops of these beacons handle, one
      process delivers no row twice. */
  ghost predicate DeliverOnce(flat: bool, b: string, c: string, sources: iset<string>) {
    forall ws: seq<World>, events, schedule, n: nat, r |
      TwoLoops(flat, ws, events, schedule, b, c, sources) && n <= |events| ::
      ws[n].posts[r] <= 1
  }

  /** On either store, two loops of one process never deliver a row twice exactly
      when their beacons' rows never meet. */
  lemma OnceExactly(flat: bool, b: string, c: string, sources: iset<string>)
    ensures DeliverOnce(flat, b, c, sources) <==> !RowsMeet(flat, b, c, sources)
  {
    if RowsMeet(flat, b, c, sources) {
      var t, u := SharedRow(flat, b, c, sources);
      var ws, events := SharedRowPostsTwice(flat, t, u);
      assert TwoLoops(flat, ws, events, [0, 1, 0, 1], b, c, sources);
      assert !(ws[4].posts[RowOf(flat, t)] <= 1);
    } else {
      assert !RowsMeet(flat, c, b, sources);
      forall ws: seq<World>, events, schedule, n: nat, r |
        TwoLoops(flat, ws, events, schedule, b, c, sources) && n <= |events|
        ensures ws[n].posts[r] <= 1
      {
        NamesSeparate(flat, ws[0].loops, [b, c], sources);
        OneDelivery(ws, events, schedule, n, r);
      }
    }
  }

  // ----- the bound is tight

  function Opened(s: Store, t: Task): World { World(s, [NewLoop([t])], {}, multiset{}, multiset{}) }

  /** The world as it started, but for m deliveries and m losses under r. */
  ghost predicate AfterRounds(s: Store, t: Task, w: World, r: Row, m: nat) {
    w == Opened(s, t).(posts := w.posts, losses := w.losses) && w.posts[r] == w.losses[r] == m
  }

  /** A signal the store just opened has not seen and that will be posted. */
  ghost predicate Deliverable(s: Store, t: Task) {
    && Sound(s) && Reopen(s) == s
    && t.Handle? && OutcomeOf(t.cfg, t.pre, t.now, t.s, t.fate, s).Delivered?
  }

  /** Look and post, then crash before the record: one delivery and one loss. */
  lemma UnluckyRound(s: Store, t: Task, w: World, m: nat)
    requires Deliverable(s, t) && AfterRounds(s, t, w, RowFor(s.InFile?, t), m)
    ensures Enabled(w, Turn(0)) && Enabled(Next(w, Turn(0)), Turn(0))
    ensures var v, end, r := Next(Next(w, Turn(0)), Turn(0)), Reboot([NewLoop([t])]), RowFor(s.InFile?, t);
      && v.posts[r] == m + 1 && v.losses[r] == m
      && Enabled(v, end) && AfterRounds(s, t, Next(v, end), r, m + 1)
  {
    var r := RowFor(s.InFile?, t);
    var u := Next(w, Turn(0));
    assert Aims(s.InFile?, u.loops[0], r) && !Marked(s, TripleFor(t));
    var v := Next(u, Turn(0));
    assert v.here == {r} && v.store == w.store;
    assert Lost(v) == {r};
  }

  lemma {:induction false} UnluckyRounds(s: Store, t: Task, m: nat) returns (ws: seq<World>, events: seq<Event>)
    requires Deliverable(s, t)
    ensures Behavior(ws, events) && ws[0] == Opened(s, t) && |events| == 3 * m
    ensures AfterRounds(s, t, ws[|events|], RowFor(s.InFile?, t), m)
  {
    if m == 0 {
      ws, events := [Opened(s, t)], [];
    } else {
      ws, events := UnluckyRounds(s, t, m - 1);
      UnluckyRound(s, t, ws[|events|], m - 1);
      ws, events := TwoMore(ws, events, Turn(0), Turn(0));
      ws := Extended(ws, events, Reboot([NewLoop([t])]));
      events := events + [Reboot([NewLoop([t])])];
    }
  }

  /** The bound is reached on either store: a process that stops between a post
      and its record, n times over, makes n losses and n + 1 deliveries. */
  lemma BoundIsReached(s: Store, t: Task, n: nat) returns (ws: seq<World>, events: seq<Event>)
    requires Deliverable(s, t)
    ensures Behavior(ws, events) && ws[0] == Opened(s, t) && Begun(ws[0])
    ensures var w, r := ws[|events|], RowFor(s.InFile?, t); w.losses[r] == n && w.posts[r] == n + 1
  {
    ws, events := UnluckyRounds(s, t, n);
    UnluckyRound(s, t, ws[|events|], n);
    ws, events := TwoMore(ws, events, Turn(0), Turn(0));
  }

  // ----- a run of the engine is such a history

  lemma OnlyTurn(w: World, at: (Store, Local))
    requires Enabled(w, Turn(0)) && w.store == at.0 && w.loops == [at.1]
    ensures Next(w, Turn(0)).store == Tick(at.0, at.1).0 && Next(w, Turn(0)).loops == [Tick(at.0, at.1).1]
  {
  }

  /** While its only loop runs, the world's store and loop are where the loop
      alone would be. */
  lemma {:induction false} OnlyLoop(ws: seq<World>, events: seq<Event>, n: nat)
    requires Behavior(ws, events) && n <= |events| && |ws[0].loops| == 1
    requires forall i :: 0 <= i < |events| ==> events[i] == Turn(0)
    ensures var at := Alone(ws[0].store, ws[0].loops[0], n); ws[n].store == at.0 && ws[n].loops == [at.1]
  {
    if n > 0 {
      OnlyLoop(ws, events, n - 1);
      assert StepAt(ws, events, n - 1) && events[n - 1] == Turn(0);
      OnlyTurn(ws[n - 1], Alone(ws[0].store, ws[0].loops[0], n - 1));
    }
  }

  lemma OneLoopSent(flat: bool, loops: seq<Local>, r: Row)
    requires |loops| == 1
    ensures Sent(flat, loops, r) == Times(flat, loops[0].posts, r)
  {
    assert Sent(flat, loops[..0], r) == 0;
  }

  /** Three turns a signal, a run of the engine is a history of one loop: the
      same store, on disk too, and the rows of the engine's posts delivered. */
  lemma RunIsHistory(ws: seq<World>, events: seq<Event>, j: Job, k: nat, p: Progress)
    requires j.Fits() && k <= |j.signals| && |events| == 3 * k && Behavior(ws, events)
    requires forall i :: 0 <= i < |events| ==> events[i] == Turn(0)
    requires |ws[0].loops| == 1 && ws[0].loops[0].phase.Looking? && Ahead(ws[0].loops[0], j)
    requires ws[0].loops[0].posts == [] && ws[0].loops[0].outcomes == []
    requires p == Progress(ws[0].store, ws[0].loops[0].counts, [], [])
    ensures var q := After(j, k, p);
      && ws[3 * k].store == q.store
      && ws[3 * k].posts == ws[0].posts + multiset(RowsOf(p.store.InFile?, q.posts))
  {
    var l, flat := ws[0].loops[0], p.store.InFile?;
    AloneIsEngine(ws[0].store, l, j, k);
    OnlyLoop(ws, events, 3 * k);
    forall r ensures ws[3 * k].posts[r] == ws[0].posts[r] + Times(flat, After(j, k, p).posts, r) {
      TurnsTally(ws, events, 3 * k, r);
      OneLoopSent(flat, ws[0].loops, r);
      OneLoopSent(flat, ws[3 * k].loops, r);
    }
  }
}

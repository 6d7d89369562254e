/** The flattened dedupe keys of internal/store/file.go and how a purge reads
    them back. */
module Keys {
  import opened Text

  datatype Triple = Triple(beacon: string, source: string, id: string)

  function Key(beacon: string, source: string, id: string): string {
    beacon + ":" + source + ":" + id
  }

  function KeyOf(t: Triple): string { Key(t.beacon, t.source, t.id) }

  /** The test a purge applies to a stored key: its second colon-separated part. */
  predicate PurgeHits(k: string, source: string) {
    var parts := Split(k, ':');
    |parts| >= 3 && parts[1] == source
  }

  predicate ColonFree(s: string) { Free(s, ':') }

  predicate WellNamed(t: Triple) { ColonFree(t.beacon) && ColonFree(t.source) }

  /** A stored key splits into the parts of its three fields, in order. */
  lemma KeySplits(beacon: string, source: string, id: string)
    ensures Split(Key(beacon, source, id), ':') == Split(beacon, ':') + Split(source, ':') + Split(id, ':')
  {
    assert Key(beacon, source, id) == (beacon + [':'] + source) + [':'] + id;
    SplitConcat(beacon + [':'] + source, id, ':');
    SplitConcat(beacon, source, ':');
  }

  /** The first part of a key names its beacon when that name has no colon. */
  lemma KeyNamesBeacon(beacon: string, source: string, id: string)
    requires ColonFree(beacon)
    ensures Split(Key(beacon, source, id), ':')[0] == beacon
  {
    KeySplits(beacon, source, id);
    SplitFree(beacon, ':');
  }

  /** With colon-free beacon and source names the encoding is injective; the id
      may contain colons. */
  lemma KeyInjective(t: Triple, u: Triple)
    requires WellNamed(t) && WellNamed(u)
    requires KeyOf(t) == KeyOf(u)
    ensures t == u
  {
    KeySplits(t.beacon, t.source, t.id);
    KeySplits(u.beacon, u.source, u.id);
    SplitFree(t.beacon, ':');
    SplitFree(t.source, ':');
    SplitFree(u.beacon, ':');
    SplitFree(u.source, ':');
    var parts := Split(KeyOf(t), ':');
    assert parts[0] == t.beacon == u.beacon;
    assert parts[1] == t.source == u.source;
    var prefix := t.beacon + ":" + t.source + ":";
    assert KeyOf(t) == prefix + t.id && KeyOf(u) == prefix + u.id;
    assert KeyOf(t)[|prefix|..] == t.id && KeyOf(u)[|prefix|..] == u.id;
  }

  /** When sources and ids have no colon the encoding is injective whatever the
      beacon names hold; only an id with a colon lets different names collide. */
  lemma PlainIdsNeverCollide(t: Triple, u: Triple)
    requires ColonFree(t.source) && ColonFree(t.id) && ColonFree(u.source) && ColonFree(u.id)
    requires KeyOf(t) == KeyOf(u)
    ensures t == u
  {
    KeySplits(t.beacon, t.source, t.id);
    KeySplits(u.beacon, u.source, u.id);
    SplitFree(t.source, ':');
    SplitFree(t.id, ':');
    SplitFree(u.source, ':');
    SplitFree(u.id, ':');
    var parts := Split(KeyOf(t), ':');
    var n := |parts| - 2;
    assert parts[n] == t.source == u.source && parts[n + 1] == t.id == u.id;
    assert parts[..n] == Split(t.beacon, ':') == Split(u.beacon, ':');
    JoinSplit(t.beacon, ':');
    JoinSplit(u.beacon, ':');
  }

  // ----- which beacon names can collide

  /** Neither name is the other, nor the other followed by a colon and more. */
  predicate Apart(b: string, c: string) {
    !(b + ":" <= c + ":") && !(c + ":" <= b + ":")
  }

  lemma PrefixesCompare(x: string, y: string, z: string)
    requires x <= z && y <= z
    ensures x <= y || y <= x
  {
    if |x| <= |y| {
      assert x == z[..|x|] == y[..|x|];
    } else {
      assert y == z[..|y|] == x[..|y|];
    }
  }

  lemma KeyBeginsWithBeacon(beacon: string, source: string, id: string)
    ensures beacon + ":" <= Key(beacon, source, id)
  {
    assert Key(beacon, source, id) == beacon + ":" + (source + ":" + id);
  }

  /** Keys of beacons that are apart never begin with each other's names, so they
      never meet, whatever the sources and ids contain. */
  lemma ApartKeysDiffer(b: string, c: string, source: string, id: string)
    requires Apart(b, c)
    ensures !(b + ":" <= Key(c, source, id))
  {
    KeyBeginsWithBeacon(c, source, id);
    if b + ":" <= Key(c, source, id) {
      PrefixesCompare(b + ":", c + ":", Key(c, source, id));
    }
  }

  /** A text is its first part, or its first part, the separator and the rest. */
  lemma {:induction false} FirstPart(x: string) returns (rest: string)
    ensures var p := Split(x, ':')[0];
      ColonFree(p) && if |Split(x, ':')| == 1 then x == p else x == p + ":" + rest
  {
    if x == "" {
      rest := "";
    } else {
      var tail := FirstPart(x[1..]);
      assert x == [x[0]] + x[1..];
      if x[0] == ':' {
        rest := x[1..];
      } else {
        rest := tail;
        assert ColonFree(Split(x, ':')[0]) by { SplitParts(x, ':'); }
      }
    }
  }

  /** What follows the name c in a longer name that begins with it. */
  function Beyond(b: string, c: string): string
    requires c + ":" <= b
  {
    b[|c| + 1..]
  }

  /** Every key of a name that extends c is also a key of c, with the first part
      of the extension for its source. */
  lemma ExtensionCollides(b: string, c: string, source: string, id: string) returns (other: string)
    requires c + ":" <= b
    ensures Key(b, source, id) == Key(c, Split(Beyond(b, c), ':')[0], other)
  {
    var more := Beyond(b, c);
    var p := Split(more, ':')[0];
    assert b == c + ":" + more;
    var rest := FirstPart(more);
    if |Split(more, ':')| == 1 {
      other := source + ":" + id;
    } else {
      other := rest + ":" + source + ":" + id;
    }
    assert Key(b, source, id) == c + ":" + p + ":" + other;
  }

  ghost predicate Meet(b: string, c: string, sources: iset<string>) {
    exists s, t, i, k :: s in sources && t in sources && Key(b, s, i) == Key(c, t, k)
  }

  lemma MeetSymmetric(b: string, c: string, sources: iset<string>)
    ensures Meet(b, c, sources) <==> Meet(c, b, sources)
  {
    if s, t, i, k :| s in sources && t in sources && Key(b, s, i) == Key(c, t, k) {
      assert Key(c, t, k) == Key(b, s, i);
    }
    if s, t, i, k :| s in sources && t in sources && Key(c, s, i) == Key(b, t, k) {
      assert Key(b, t, k) == Key(c, s, i);
    }
  }

  /** Names that are apart never meet, over any sources at all. */
  lemma ApartNeverMeet(b: string, c: string, sources: iset<string>)
    requires Apart(b, c)
    ensures !Meet(b, c, sources)
  {
    if s, t, i, k :| s in sources && t in sources && Key(b, s, i) == Key(c, t, k) {
      KeyBeginsWithBeacon(b, s, i);
      ApartKeysDiffer(b, c, t, k);
    }
  }

  /** b extends c by something that begins with one of the sources. */
  ghost predicate Under(b: string, c: string, sources: iset<string>) {
    c + ":" <= b && Split(Beyond(b, c), ':')[0] in sources
  }

  lemma UnderMeets(b: string, c: string, source: string, sources: iset<string>)
    requires source in sources && Under(b, c, sources)
    ensures Meet(b, c, sources) && Meet(c, b, sources)
  {
    var other := ExtensionCollides(b, c, source, "1");
    var t := Split(Beyond(b, c), ':')[0];
    assert Key(b, source, "1") == Key(c, t, other);
    assert Key(c, t, other) == Key(b, source, "1");
  }

  lemma MeetingIsUnder(b: string, c: string, s: string, t: string, i: string, k: string)
    requires ColonFree(t) && Key(b, s, i) == Key(c, t, k) && |c| < |b|
    ensures c + ":" <= b && Split(Beyond(b, c), ':')[0] == t
  {
    KeyBeginsWithBeacon(b, s, i);
    KeyBeginsWithBeacon(c, t, k);
    PrefixesCompare(b + ":", c + ":", Key(b, s, i));
    assert c + ":" <= b + ":";
    assert (b + ":")[..|c| + 1] == b[..|c| + 1];
    var more := Beyond(b, c);
    assert b == c + ":" + more;
    var x := Key(b, s, i);
    assert x == c + ":" + Key(more, s, i) && x == c + ":" + (t + ":" + k);
    assert Key(more, s, i) == x[|c| + 1..] == t + [':'] + k;
    KeySplits(more, s, i);
    SplitConcat(t, k, ':');
    SplitFree(t, ':');
  }

  lemma SameLengthSameName(b: string, c: string, s: string, t: string, i: string, k: string)
    requires Key(b, s, i) == Key(c, t, k) && |b| == |c|
    ensures b == c
  {
    KeyBeginsWithBeacon(b, s, i);
    KeyBeginsWithBeacon(c, t, k);
    PrefixesCompare(b, c, Key(b, s, i));
  }

  /** For any sources that contain no colon: two beacons can share a key exactly
      when they have the same name or one name is the other followed by a colon
      and something that begins with one of those sources. */
  lemma KeysMeetExactly(b: string, c: string, sources: iset<string>)
    requires sources != iset{} && forall s :: s in sources ==> ColonFree(s)
    ensures Meet(b, c, sources) <==> b == c || Under(b, c, sources) || Under(c, b, sources)
  {
    var source :| source in sources;
    if b == c {
      assert Key(b, source, "1") == Key(c, source, "1");
    }
    if Under(b, c, sources) {
      UnderMeets(b, c, source, sources);
    }
    if Under(c, b, sources) {
      UnderMeets(c, b, source, sources);
    }
    if Meet(b, c, sources) {
      var s, t, i, k :| s in sources && t in sources && Key(b, s, i) == Key(c, t, k);
      if |c| < |b| {
        MeetingIsUnder(b, c, s, t, i, k);
      } else if |b| < |c| {
        MeetingIsUnder(c, b, t, s, k, i);
      } else {
        SameLengthSameName(b, c, s, t, i, k);
      }
    }
  }

  lemma ExtendsExactly(b: string, c: string)
    ensures c + ":" <= b + ":" <==> b == c || Under(b, c, iset s | ColonFree(s))
  {
    if c + ":" <= b {
      SplitParts(Beyond(b, c), ':');
      assert (b + ":")[..|c| + 1] == b[..|c| + 1];
    }
    if c + ":" <= b + ":" {
      if |c| < |b| {
        assert (b + ":")[..|c| + 1] == b[..|c| + 1];
      } else {
        assert c == (b + ":")[..|c|] == b;
      }
    }
  }

  /** Over all colon-free sources that is precisely not being apart. */
  lemma ApartExactly(b: string, c: string)
    ensures Meet(b, c, iset s | ColonFree(s)) <==> !Apart(b, c)
  {
    var sources := iset s | ColonFree(s);
    assert "hn" in sources;
    KeysMeetExactly(b, c, sources);
    ExtendsExactly(b, c);
    ExtendsExactly(c, b);
  }

  /** The source names of the registry. */
  const SOURCES: set<string> := {"hn", "lobsters", "reddit"}

  /** With the registered sources, the beacons "a" and "a:hn" do share keys. */
  lemma RegisteredNamesCollide()
    ensures Meet("a:hn", "a", iset s | s in SOURCES)
  {
    assert Key("a:hn", "hn", "1") == "a:hn:hn:1" == Key("a", "hn", "hn:1");
  }

  // ----- what a purge reads

  /** The part of a key that a purge compares, whatever the names hold. */
  function Middle(beacon: string, source: string): string {
    var parts := Split(beacon, ':');
    if |parts| == 1 then Split(source, ':')[0] else parts[1]
  }

  lemma PurgeReadsMiddle(beacon: string, source: string, id: string, other: string)
    ensures PurgeHits(Key(beacon, source, id), other) <==> other == Middle(beacon, source)
  {
    KeySplits(beacon, source, id);
  }

  /** Any stored key at all, of the engine's making or not: a purge hits it exactly
      when it is some colon-free text, the source and something more, joined by
      colons; so a key with fewer than two colons is never hit. */
  lemma PurgeHitsExactly(k: string, source: string)
    requires ColonFree(source)
    ensures PurgeHits(k, source) <==> exists b, rest :: ColonFree(b) && k == Key(b, source, rest)
  {
    if PurgeHits(k, source) {
      var tail := FirstPart(k);
      var b := Split(k, ':')[0];
      SplitConcat(b, tail, ':');
      SplitFree(b, ':');
      assert k == b + [':'] + tail;
      assert Split(k, ':')[1..] == Split(tail, ':');
      var rest := FirstPart(tail);
      assert Split(tail, ':')[0] == source && tail == source + ":" + rest;
      assert k == Key(b, source, rest);
    }
    if b, rest :| ColonFree(b) && k == Key(b, source, rest) {
      KeySplits(b, source, rest);
      SplitFree(b, ':');
      SplitFree(source, ':');
    }
  }

  /** For a colon-free source, a purge test tells the keys of a beacon by their
      source exactly when the beacon name has no colon or its second
      colon-separated part is that very source. */
  lemma PurgeHitsItsSource(beacon: string, source: string, id: string)
    requires ColonFree(source)
    ensures (forall other :: PurgeHits(Key(beacon, source, id), other) <==> other == source)
       <==> (var parts := Split(beacon, ':'); ColonFree(beacon) || parts[if |parts| > 1 then 1 else 0] == source)
  {
    SplitFree(beacon, ':');
    SplitFree(source, ':');
    forall other
      ensures PurgeHits(Key(beacon, source, id), other) <==> other == Middle(beacon, source)
    {
      PurgeReadsMiddle(beacon, source, id, other);
    }
    assert PurgeHits(Key(beacon, source, id), source) <==> source == Middle(beacon, source);
  }
}

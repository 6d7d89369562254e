/** The file store of internal/store/file.go over a disk whose every step can
    fail or be the last one before a crash. */
module FileStore {
  import opened Core
  import opened Keys
  import opened StoreState

  /** The store path and the temporary files beside it. A temporary file is
      known by a serial number, since os.CreateTemp never reuses a name.
      `history` holds what a reader of the store path would find after each
      step, so it lists every state a crash can leave behind. */
  class Disk {
    var store: Option<Content>
    var temps: map<nat, Content>
    var serial: nat
    ghost var history: seq<Option<Content>>

    constructor (store: Option<Content>)
      ensures this.store == store && temps == map[] && history == [store]
    {
      this.store, temps, serial, history := store, map[], 0, [store];
    }

    method CreateTemp() returns (h: nat)
      modifies this
      ensures store == old(store) && h == old(serial) && serial == h + 1
      ensures temps == old(temps)[h := Empty] && history == old(history) + [store]
    {
      h := serial;
      serial := serial + 1;
      temps := temps[h := Empty];
      history := history + [store];
    }

    method Write(h: nat, c: Content)
      modifies this
      ensures store == old(store) && serial == old(serial)
      ensures temps == old(temps)[h := c] && history == old(history) + [store]
    {
      temps := temps[h := c];
      history := history + [store];
    }

    method Remove(h: nat)
      modifies this
      ensures store == old(store) && serial == old(serial)
      ensures temps == old(temps) - {h} && history == old(history) + [store]
    {
      temps := temps - {h};
      history := history + [store];
    }

    method Rename(h: nat)
      requires h in temps
      modifies this
      ensures store == Some(old(temps)[h]) && serial == old(serial)
      ensures temps == old(temps) - {h} && history == old(history) + [store]
    {
      store := Some(temps[h]);
      temps := temps - {h};
      history := history + [store];
    }
  }

  /** In-place removal of one source's findings from the first n slots. */
  method Compact(a: array<Finding>, n: nat, source: string) returns (kept: nat, removed: nat)
    requires n <= a.Length
    modifies a
    ensures kept <= n && removed == n - kept
    ensures a[..kept] == Select(old(a[..n]), NotOfSource(source))
  {
    kept, removed := 0, 0;
    ghost var was := a[..n];
    for r := 0 to n
      invariant kept <= r && removed == r - kept
      invariant a[..kept] == Select(was[..r], NotOfSource(source))
      invariant a[r..n] == was[r..]
    {
      var fnd := a[r];
      assert fnd == was[r] by { assert a[r..n][0] == was[r..][0]; }
      SelectSnoc(was[..r], fnd, NotOfSource(source));
      assert was[..r + 1] == was[..r] + [fnd];
      if fnd.signal.source == source {
        removed := removed + 1;
        assert a[r + 1..n] == a[r..n][1..];
      } else {
        ghost var before := a[..kept];
        ghost var tail := a[r..n];
        a[kept] := fnd;
        kept := kept + 1;
        assert a[..kept] == before + [fnd];
        assert a[r + 1..n] == tail[1..];
      }
    }
    assert was[..n] == was;
  }

  class File {
    const disk: Disk
    var seen: map<string, bool>
    // The findings slice: its backing array and its length.
    var buf: array<Finding>
    var len: nat
    var claims: map<string, string>

    ghost predicate Valid()
      reads this
    {
      len <= buf.Length
    }

    ghost function Mem(): State
      requires Valid()
      reads this, buf
    {
      State(seen, buf[..len], claims)
    }

    constructor (disk: Disk, st: State)
      ensures Valid() && fresh(buf) && this.disk == disk && Mem() == st
    {
      this.disk, seen, claims, len := disk, st.seen, st.claims, |st.findings|;
      buf := new Finding[|st.findings|](i requires 0 <= i < |st.findings| => st.findings[i]);
    }

    /** OpenFile. `readable` is false when reading fails for another reason
        than a missing file. */
    static method OpenFile(disk: Disk, readable: bool) returns (f: File?)
      ensures f == null <==> !readable || !Whole(disk.store)
      ensures f != null ==> fresh(f) && fresh(f.buf) && f.Valid() && f.disk == disk && f.Mem() == Load(disk.store)
    {
      if !readable {
        return null;
      }
      var st := FRESH;
      if disk.store.Some? {
        match disk.store.value {
          case Empty =>
          case Torn => return null;
          case Doc(s, fs, cs) =>
            st := State(if s.None? then map[] else s.value, fs, if cs.None? then map[] else cs.value);
        }
      }
      f := new File(disk, st);
    }

    /** What a save leaves: on success the path holds this very state, on
        failure what it held; in between it never held anything else. */
    twostate predicate Saved(ok: bool)
      requires Valid()
      reads this, buf, disk
    {
      && disk.store == (if ok then Some(Encode(Mem())) else old(disk.store))
      && |old(disk.history)| <= |disk.history|
      && disk.history[..|old(disk.history)|] == old(disk.history)
      && forall i :: |old(disk.history)| <= i < |disk.history| ==>
           disk.history[i] == old(disk.store) || disk.history[i] == disk.store
    }

    method SaveLocked(step: SaveStep) returns (ok: bool)
      requires Valid()
      modifies disk
      ensures ok <==> step.Completes?
      ensures Saved(ok)
      ensures ok ==> disk.temps == old(disk.temps) - {old(disk.serial)}
      ensures step.MarshalFails? || step.CreateFails? ==> unchanged(disk)
      ensures step.WriteFails? || step.CloseFails? || step.RenameFails? ==>
        && disk.temps - {old(disk.serial)} == old(disk.temps) - {old(disk.serial)}
        && (old(disk.serial) in disk.temps <==> step.left)
    {
      if step.MarshalFails? || step.CreateFails? {
        return false;
      }
      var doc := Encode(State(seen, buf[..len], claims));
      var tmp := disk.CreateTemp();
      if !step.WriteFails? || step.begun {
        disk.Write(tmp, Torn);
      }
      if step.WriteFails? {
        if !step.left { disk.Remove(tmp); }
        return false;
      }
      disk.Write(tmp, doc);
      if step.CloseFails? || step.RenameFails? {
        if !step.left { disk.Remove(tmp); }
        return false;
      }
      disk.Rename(tmp);
      return true;
    }

    method Seen(t: Triple) returns (found: bool)
      requires Valid()
      ensures found <==> IsSeen(Mem(), t)
    {
      var k := Key(t.beacon, t.source, t.id);
      found := k in seen && seen[k];
    }

    method MarkSeen(t: Triple, step: SaveStep) returns (ok: bool)
      requires Valid()
      modifies this, disk
      ensures Valid() && buf == old(buf)
      ensures Mem() == Apply(old(Mem()), Mark(t))
      ensures (ok <==> step.Completes?) && Saved(ok)
    {
      seen := seen[Key(t.beacon, t.source, t.id) := true];
      ok := SaveLocked(step);
    }

    /** Go's append: in place while the capacity lasts, else into a new array. */
    method Append(fnd: Finding)
      requires Valid()
      modifies this, buf
      ensures Valid() && (buf == old(buf) || fresh(buf))
      ensures Mem() == old(Mem()).(findings := old(Mem()).findings + [fnd])
    {
      if len == buf.Length {
        var bigger := new Finding[2 * len + 1](_ => fnd);
        forall i | 0 <= i < len {
          bigger[i] := buf[i];
        }
        buf := bigger;
      }
      buf[len] := fnd;
      len := len + 1;
      assert buf[..len] == old(buf[..len]) + [fnd];
    }

    method Record(fnd: Finding, step: SaveStep) returns (ok: bool)
      requires Valid()
      modifies this, buf, disk
      ensures Valid() && (buf == old(buf) || fresh(buf))
      ensures Mem() == Apply(old(Mem()), Rec(fnd))
      ensures (ok <==> step.Completes?) && Saved(ok)
    {
      Append(fnd);
      seen := seen[Key(fnd.beacon, fnd.signal.source, fnd.signal.id) := true];
      ok := SaveLocked(step);
    }

    method Claim(findingId: string, claimant: string, step: SaveStep) returns (ok: bool)
      requires Valid()
      modifies this, disk
      ensures Valid() && buf == old(buf)
      ensures Mem() == Apply(old(Mem()), ClaimIt(findingId, claimant))
      ensures (ok <==> step.Completes?) && Saved(ok)
    {
      claims := claims[findingId := claimant];
      ok := SaveLocked(step);
    }

    method PendingDigest(beacon: string) returns (out: seq<Finding>)
      requires Valid()
      ensures out == Select(Mem().findings, OfBeacon(beacon))
    {
      out := [];
      ghost var all := buf[..len];
      for i := 0 to len
        invariant out == Select(all[..i], OfBeacon(beacon))
      {
        assert all[..i + 1] == all[..i] + [buf[i]];
        SelectSnoc(all[..i], buf[i], OfBeacon(beacon));
        if buf[i].beacon == beacon {
          out := out + [buf[i]];
        }
      }
      assert all[..len] == all;
    }

    /** Deletes the keys a purge hits, visiting them in whatever order the map
        yields them. */
    method PurgeKeys(source: string) returns (n: nat)
      requires Valid()
      modifies this
      ensures Valid() && buf == old(buf) && len == old(len) && claims == old(claims)
      ensures seen == PurgedSeen(old(seen), source) && n == |HitKeys(old(seen), source)|
    {
      n := 0;
      var todo := seen.Keys;
      ghost var gone: set<string> := {};
      while todo != {}
        invariant buf == old(buf) && len == old(len) && claims == old(claims)
        invariant todo <= old(seen).Keys
        invariant gone == (set k | k in old(seen) && k !in todo && PurgeHits(k, source)) && n == |gone|
        invariant seen == map k | k in old(seen) && k !in gone :: old(seen)[k]
      {
        var k :| k in todo;
        var parts := Text.Split(k, ':');
        if |parts| >= 3 && parts[1] == source {
          seen := seen - {k};
          gone := gone + {k};
          n := n + 1;
        }
        todo := todo - {k};
      }
      assert gone == HitKeys(old(seen), source);
    }

    method PurgeSource(source: string, step: SaveStep) returns (n: nat, ok: bool)
      requires Valid()
      modifies this, buf, disk
      ensures Valid() && buf == old(buf)
      ensures Mem() == Purged(old(Mem()), source)
      ensures n == PurgeCount(old(Mem()), source)
      ensures n > 0 ==> (ok <==> step.Completes?) && Saved(ok)
      ensures n == 0 ==> ok && unchanged(disk)
    {
      n := PurgeKeys(source);
      var kept, removed := Compact(buf, len, source);
      len := kept;
      n := n + removed;
      ok := true;
      if n > 0 {
        ok := SaveLocked(step);
      }
    }
  }
}

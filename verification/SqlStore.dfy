/** The second adapter of the persistence port, internal/store/azuresql.go:
    keyed tables, an upsert, and transactions that commit whole or not at all. */
module SqlStore {
  import opened Core
  import opened Keys
  import opened StoreState

  /** The three tables; each map or set is keyed by the table's primary key. */
  datatype Db = Db(seen: set<Triple>, finding: map<Triple, Finding>, claims: map<string, string>)

  const EMPTY := Db({}, map[], map[])

  function SqlApply(db: Db, op: StoreOp): Db {
    match op
    case Nothing => db
    case Mark(t) => db.(seen := db.seen + {t})
    case Rec(f) => db.(finding := db.finding[TripleOf(f) := f], seen := db.seen + {TripleOf(f)})
    case ClaimIt(id, who) => db.(claims := db.claims[id := who])
  }

  function SeenRows(db: Db, source: string): set<Triple> {
    set t | t in db.seen && t.source == source
  }

  function FindingRows(db: Db, source: string): set<Triple> {
    set t | t in db.finding && t.source == source
  }

  function SqlPurged(db: Db, source: string): Db {
    Db(db.seen - SeenRows(db, source), db.finding - FindingRows(db, source), db.claims)
  }

  function SqlPurgeCount(db: Db, source: string): nat {
    |SeenRows(db, source)| + |FindingRows(db, source)|
  }

  /** A query result: every row of one beacon once, in no promised order. */
  ghost predicate Lists(db: Db, beacon: string, rows: seq<Triple>) {
    && (forall t :: t in rows <==> t in db.finding && t.beacon == beacon)
    && (forall i, j :: 0 <= i < j < |rows| ==> rows[i] != rows[j])
  }

  function RowData(db: Db, rows: seq<Triple>): seq<Finding>
    requires forall t :: t in rows ==> t in db.finding
  {
    seq(|rows|, i requires 0 <= i < |rows| => db.finding[rows[i]])
  }

  /** How far a transaction gets. */
  datatype TxStep = MarshalOrBeginFails | FirstFails | SecondFails | CommitFails | Commits

  class AzureSQL {
    var db: Db

    constructor ()
      ensures db == EMPTY
    {
      db := EMPTY;
    }

    method Seen(t: Triple, reachable: bool) returns (r: Option<bool>)
      ensures r == if reachable then Some(t in db.seen) else None
    {
      if !reachable { return None; }
      r := Some(t in db.seen);
    }

    method MarkSeen(t: Triple, reachable: bool) returns (ok: bool)
      modifies this
      ensures ok == reachable
      ensures db == if ok then SqlApply(old(db), Mark(t)) else old(db)
    {
      if !reachable { return false; }
      if t !in db.seen {
        db := db.(seen := db.seen + {t});
      }
      assert db.seen == old(db).seen + {t};
      return true;
    }

    method Record(f: Finding, step: TxStep) returns (ok: bool)
      modifies this
      ensures ok <==> step.Commits?
      ensures db == if ok then SqlApply(old(db), Rec(f)) else old(db)
    {
      if step.MarshalOrBeginFails? { return false; }
      var tx := db;
      var t := TripleOf(f);
      if step.FirstFails? { return false; }
      tx := tx.(finding := tx.finding[t := f]);
      if step.SecondFails? { return false; }
      if t !in tx.seen {
        tx := tx.(seen := tx.seen + {t});
      }
      if step.CommitFails? { return false; }
      assert tx.seen == db.seen + {t};
      db := tx;
      return true;
    }

    method Claim(findingId: string, claimant: string, reachable: bool) returns (ok: bool)
      modifies this
      ensures ok == reachable
      ensures db == if ok then SqlApply(old(db), ClaimIt(findingId, claimant)) else old(db)
    {
      if !reachable { return false; }
      db := db.(claims := db.claims[findingId := claimant]);
      return true;
    }

    /** PendingDigest; the rows arrive in an order the database picks. */
    method PendingDigest(beacon: string, readable: bool) returns (out: Option<seq<Finding>>, ghost rows: seq<Triple>)
      ensures out.None? <==> !readable
      ensures out.Some? ==> Lists(db, beacon, rows) && out.value == RowData(db, rows)
    {
      rows := [];
      if !readable { return None, []; }
      var todo := set t | t in db.finding && t.beacon == beacon;
      ghost var all := todo;
      var got: seq<Finding> := [];
      while todo != {}
        invariant todo <= all
        invariant forall t :: t in rows <==> t in all && t !in todo
        invariant forall i, j :: 0 <= i < j < |rows| ==> rows[i] != rows[j]
        invariant got == RowData(db, rows)
      {
        var t :| t in todo;
        got := got + [db.finding[t]];
        rows := rows + [t];
        todo := todo - {t};
      }
      out := Some(got);
    }

    /** PurgeSource: both deletes in one transaction. `counted` tells for which
        statement the driver reports its row count. */
    method PurgeSource(source: string, step: TxStep, counted: set<nat>) returns (total: nat, ok: bool)
      modifies this
      ensures ok <==> step.Commits?
      ensures db == if ok then SqlPurged(old(db), source) else old(db)
      ensures !ok ==> total == 0
      ensures ok ==> total == (if 0 in counted then |FindingRows(old(db), source)| else 0)
                           + (if 1 in counted then |SeenRows(old(db), source)| else 0)
    {
      total := 0;
      if step.MarshalOrBeginFails? { return 0, false; }
      var tx := db;
      for i: nat := 0 to 2
        invariant (i > 0 ==> !step.FirstFails?) && (i > 1 ==> !step.SecondFails?)
        invariant tx == (if i == 0 then db
                         else if i == 1 then db.(finding := db.finding - FindingRows(db, source))
                         else SqlPurged(db, source))
        invariant total == (if i > 0 && 0 in counted then |FindingRows(db, source)| else 0)
                         + (if i > 1 && 1 in counted then |SeenRows(db, source)| else 0)
      {
        if (i == 0 && step.FirstFails?) || (i == 1 && step.SecondFails?) { return 0, false; }
        var n: nat;
        if i == 0 {
          var hit := set t | t in tx.finding && t.source == source;
          n := |hit|;
          tx := tx.(finding := tx.finding - hit);
        } else {
          var hit := set t | t in tx.seen && t.source == source;
          n := |hit|;
          tx := tx.(seen := tx.seen - hit);
        }
        if i in counted {
          total := total + n;
        }
      }
      if step.CommitFails? { return 0, false; }
      db := tx;
      return total, true;
    }
  }
}

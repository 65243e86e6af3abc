/** The database as the repositories change it, statement by statement. */
module Storage {
  import opened Collections
  import opened Schema

  class Database {
    var tables: map<TableName, DataType>
    var records: map<RecordId, Record>
    var crossmatch: map<RecordId, Crossmatch>
    var pgcs: map<Pgc, Time>
    var nextPgc: int
    var layer1: PerCatalog<map<Key, Row>>
    var layer2: PerCatalog<map<Pgc, Summary>>
    var lastUpdate: PerCatalog<Time>
    var clock: Time

    constructor ()
      ensures Snapshot() == Empty()
    {
      tables, records, crossmatch := map[], map[], map[];
      pgcs, nextPgc := map[], 1;
      layer1 := PerCatalog(map[], map[], map[], map[]);
      layer2 := PerCatalog(map[], map[], map[], map[]);
      lastUpdate, clock := PerCatalog(0, 0, 0, 0), 1;
    }

    function Snapshot(): State
      reads this
    {
      State(Content(tables, records, layer1), crossmatch, pgcs, nextPgc, layer2, lastUpdate, clock)
    }
  }

  // ---- common.pgc ----

  function Touched(pgcs: map<Pgc, Time>, ids: set<Pgc>, now: Time): map<Pgc, Time> {
    map p | p in pgcs :: if p in ids then now else pgcs[p]
  }

  /** A transaction that ends by touching `ids`; the clock moves on. */
  function Touch(st: State, ids: set<Pgc>): State {
    st.(pgcs := Touched(st.pgcs, ids, st.clock), clock := st.clock + 1)
  }

  /** Both changed the modification times of the same PGCs of `s`. */
  ghost predicate SameTouches(s: State, t: State, w: State) {
    forall p | p in s.pgcs :: p in t.pgcs && p in w.pgcs && (t.pgcs[p] == s.pgcs[p] <==> w.pgcs[p] == s.pgcs[p])
  }

  method TouchPgcs(db: Database, ids: set<Pgc>)
    modifies db`pgcs, db`clock
    ensures db.Snapshot() == Touch(old(db.Snapshot()), ids)
  {
    db.pgcs := map p | p in db.pgcs :: if p in ids then db.clock else db.pgcs[p];
    db.clock := db.clock + 1;
  }

  /** How many ids the sequence yields from `first` on before one that is already taken. */
  function FreeRun(pgcs: map<Pgc, Time>, first: int, n: nat): (run: nat)
    ensures run <= n
    ensures forall p | p in pgcs :: !(first <= p.number < first + run)
    ensures run < n ==> Pgc(first + run) in pgcs
    decreases n
  {
    if n == 0 || Pgc(first) in pgcs then 0 else 1 + FreeRun(pgcs, first + 1, n - 1)
  }

  function MintedIds(first: int, n: nat): (ids: set<Pgc>)
    ensures forall p :: p in ids <==> first <= p.number < first + n
  {
    if n == 0 then {} else {Pgc(first + n - 1)} + MintedIds(first, n - 1)
  }

  /** The insert of `n` default rows, once it is known to clash with no row. */
  function Mint(st: State, n: nat): State {
    st.(pgcs := st.pgcs + (map p | p in MintedIds(st.nextPgc, n) :: st.clock), nextPgc := st.nextPgc + n)
  }

  /** A default row that clashes rolls the insert back, but not the sequence. */
  function SkipClash(st: State, run: nat): State {
    st.(nextPgc := st.nextPgc + run + 1)
  }

  method MintPgcIds(db: Database, n: nat) returns (ok: bool, ids: seq<Pgc>)
    modifies db`pgcs, db`nextPgc
    ensures ok == (FreeRun(old(db.pgcs), old(db.nextPgc), n) == n)
    ensures ok ==> ids == seq(n, i => Pgc(old(db.nextPgc) + i))
    ensures ok ==> db.Snapshot() == Mint(old(db.Snapshot()), n)
    ensures !ok ==> db.Snapshot() == SkipClash(old(db.Snapshot()), FreeRun(old(db.pgcs), old(db.nextPgc), n))
  {
    var run := FreeRun(db.pgcs, db.nextPgc, n);
    ok := run == n;
    if ok {
      var first := db.nextPgc;
      ids := seq(n, i => Pgc(first + i));
      db.pgcs := db.pgcs + (map p | p in MintedIds(first, n) :: db.clock);
      db.nextPgc := db.nextPgc + n;
    } else {
      ids := [];
      db.nextPgc := db.nextPgc + run + 1;
    }
  }

  /** Without ids the statement is VALUES with nothing after it, which the database refuses. */
  function RegisterIds(st: State, ids: seq<Pgc>): (State, bool) {
    if ids == [] then (st, false)
    else (st.(pgcs := (map p | p in ids :: st.clock) + st.pgcs, clock := st.clock + 1), true)
  }

  /** INSERT ... ON CONFLICT DO NOTHING, which keeps the times of the rows already there. */
  method RegisterPgcs(db: Database, ids: seq<Pgc>) returns (ok: bool)
    modifies db`pgcs, db`clock
    ensures (db.Snapshot(), ok) == RegisterIds(old(db.Snapshot()), ids)
  {
    if ids == [] {
      return false;
    }
    db.pgcs := (map p | p in ids :: db.clock) + db.pgcs;
    db.clock := db.clock + 1;
    ok := true;
  }

  method GetExistingPgcs(db: Database, ids: seq<Pgc>) returns (found: set<Pgc>)
    ensures found == Elements(ids) * db.pgcs.Keys
  {
    found := set p | p in ids && p in db.pgcs;
  }
}

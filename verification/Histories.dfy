/** Short histories that reach the states in which a property fails. */
module Histories {
  import opened Collections
  import opened Schema
  import opened Storage
  import opened Records
  import opened Aggregation
  import opened Layers
  import opened Layer1
  import opened Writers
  import opened Import
  import opened Freshness

  lemma RunOn(states: seq<State>, ops: seq<Op>, op: Op, t: State)
    requires IsRun(states, ops) && Legal(states[|ops|], op) && Next(states[|ops|], op, t)
    ensures IsRun(states + [t], ops + [op])
    ensures (states + [t])[|ops + [op]|] == t
  {
    hide Legal, Next;
    var longer, all := states + [t], ops + [op];
    forall i | 0 <= i < |all| ensures Legal(longer[i], all[i]) && Next(longer[i], all[i], longer[i + 1]) {
      if i < |ops| {
        assert longer[i] == states[i] && longer[i + 1] == states[i + 1] && all[i] == ops[i];
      }
    }
  }

  ghost predicate Leads(states: seq<State>, ops: seq<Op>, st: State) {
    IsRun(states, ops) && states[|ops|] == st
  }

  /** A state that some history reaches. */
  ghost predicate Reachable(st: State) {
    exists states, ops :: Leads(states, ops, st)
  }

  lemma EmptyReachable()
    ensures Reachable(Empty())
  {
    assert Leads([Empty()], [], Empty());
  }

  lemma ReachOn(s: State, op: Op, t: State)
    requires Reachable(s) && Legal(s, op) && Next(s, op, t)
    ensures Reachable(t)
  {
    hide Legal, Next;
    var states, ops :| Leads(states, ops, s);
    RunOn(states, ops, op, t);
    assert Leads(states + [t], ops + [op], t);
  }

  /** What is proved of every run holds of every reachable state. */
  lemma ReachableIsGood(st: State)
    requires Reachable(st)
    ensures Good(st)
  {
    hide Good, Legal, Next;
    var states, ops :| Leads(states, ops, st);
    RunsAreFresh(states, ops, |ops|);
  }

  // ---- Two records of one object ----

  const NO_ROWS: PerCatalog<map<Key, Row>> := PerCatalog(map[], map[], map[], map[])
  const NO_SUMMARIES: PerCatalog<map<Pgc, Summary>> := PerCatalog(map[], map[], map[], map[])

  const TABLES: map<TableName, DataType> := map["first" := Regular, "second" := Regular]

  function Tables(names: map<TableName, DataType>, records: map<RecordId, Record>): State {
    Empty().(content := Content(names, records, NO_ROWS))
  }

  /** Records "r" and "s" of regular tables, both of PGC 1. */
  function TwoRecords(): State {
    State(
      Content(TABLES, map["r" := Record("first", Some(Pgc(1))), "s" := Record("second", Some(Pgc(1)))], NO_ROWS),
      map[], map[Pgc(1) := 1], 2, NO_SUMMARIES, PerCatalog(0, 0, 0, 0), 2)
  }

  lemma TablesReachable()
    ensures Reachable(Tables(TABLES, map[]))
  {
    hide Reachable;
    var a, b := Tables(map["first" := Regular], map[]), Tables(TABLES, map[]);
    EmptyReachable();
    ReachOn(Empty(), OpCreateTable("first", Regular), a);
    ReachOn(a, OpCreateTable("second", Regular), b);
  }

  /** Before any row is averaged no change of classes matters. */
  lemma UnweighedLegal(s: State, table: TableName, records: seq<RecordId>)
    requires Valid(s) && forall c: Catalog, k :: !Weighed(s.content, c, k)
    ensures Legal(s, OpRegister(table, records))
  {
    hide SameButClasses, UnmarkedAnswers;
    RegisterClasses(s, table, records);
    ChangesMarkedSuffices(s, RegisterRecords(s, table, records).0.content);
  }

  lemma RegisterLegal(records: map<RecordId, Record>, table: TableName, ids: seq<RecordId>)
    requires forall q | q in records :: records[q].pgc.None? && records[q].table in TABLES
    ensures Legal(Tables(TABLES, records), OpRegister(table, ids))
  {
    hide Legal;
    var s := Tables(TABLES, records);
    forall c: Catalog, k ensures !Weighed(s.content, c, k) && ValidTable(c, s.content.layer1.Get(c), records) {}
    UnweighedLegal(s, table, ids);
  }

  /** A new record, registered. */
  lemma RegisterOne(records: map<RecordId, Record>, table: TableName, r: RecordId)
    requires table in TABLES && r !in records
    requires forall q | q in records :: records[q].pgc.None? && records[q].table in TABLES
    ensures var s, t := Tables(TABLES, records), Tables(TABLES, records[r := Record(table, None)]);
      Legal(s, OpRegister(table, [r])) && Next(s, OpRegister(table, [r]), t)
  {
    hide Legal;
    var s := Tables(TABLES, records);
    assert RegisterRecords(s, table, [r]).0.content.records == records[r := Record(table, None)];
    RegisterLegal(records, table, [r]);
  }

  lemma RegisteredReachable()
    ensures Reachable(Tables(TABLES, map["r" := Record("first", None), "s" := Record("second", None)]))
  {
    hide Reachable, Legal, Next;
    var none: map<RecordId, Record> := map[];
    var one := none["r" := Record("first", None)];
    TablesReachable();
    RegisterOne(none, "first", "r");
    ReachOn(Tables(TABLES, none), OpRegister("first", ["r"]), Tables(TABLES, one));
    RegisterOne(one, "second", "s");
    ReachOn(Tables(TABLES, one), OpRegister("second", ["s"]), Tables(TABLES, one["s" := Record("second", None)]));
    assert one["s" := Record("second", None)] == map["r" := Record("first", None), "s" := Record("second", None)];
  }

  /** The dict of an upsert that gives "r" a new PGC and "s" the number it will have. */
  function BothNew(): seq<Entry> {
    [Entry("r", None), Entry("s", Some(Pgc(1)))]
  }

  lemma BothNewParts()
    ensures NewRecords(BothNew()) == ["r"] && Explicit(BothNew()) == map["s" := Pgc(1)] && IsDict(BothNew())
    ensures MintedFor(["r"], 1) + Explicit(BothNew()) == map["r" := Pgc(1), "s" := Pgc(1)]
  {
    var front := BothNew()[..1];
    assert front == [Entry("r", None)] && front[..0] == [];
    assert NewRecords(front) == ["r"] && Explicit(front) == map[];
    assert MintedFor(["r"], 1) == map["r" := Pgc(1)];
  }

  lemma ValuesOf(inserts: map<RecordId, Pgc>, p: Pgc)
    requires inserts != map[] && forall r | r in inserts :: inserts[r] == p
    ensures inserts.Values == {p}
  {
    var r :| r in inserts;
    assert inserts[r] == p;
  }

  lemma MintFirst(s: State)
    requires s.pgcs == map[] && s.nextPgc == 1 && s.clock == 1
    ensures FreeRun(s.pgcs, 1, 1) == 1 && Mint(s, 1) == s.(pgcs := map[Pgc(1) := 1], nextPgc := 2)
  {
    assert Mint(s, 1).pgcs == map[Pgc(1) := 1];
  }

  lemma TouchOne(pgcs: map<Pgc, Time>, now: Time)
    requires pgcs.Keys == {Pgc(1)}
    ensures Touched(pgcs, {Pgc(1)}, now) == map[Pgc(1) := now]
  {}

  lemma BothUpdated(m: State)
    requires m.content == Tables(TABLES, map["r" := Record("first", None), "s" := Record("second", None)]).content
    requires m.pgcs == map[Pgc(1) := 1] && m.clock == 1
    ensures WriteEntries(m, map["r" := Pgc(1), "s" := Pgc(1)]).0 ==
              m.(content := TwoRecords().content, clock := 2)
  {
    hide Touched;
    var inserts := map["r" := Pgc(1), "s" := Pgc(1)];
    assert "r" in inserts;
    ValuesOf(inserts, Pgc(1));
    assert PreviousPgcs(m, inserts) == {};
    assert {} + {Pgc(1)} == {Pgc(1)};
    assert WithPgcs(m.content.records, inserts) == TwoRecords().content.records;
    TouchOne(m.pgcs, 1);
  }

  lemma BothWritten(s: State)
    requires s == Tables(TABLES, map["r" := Record("first", None), "s" := Record("second", None)])
    ensures Upsert(s, BothNew()).0 == TwoRecords()
  {
    hide NewRecords, Explicit, FreeRun, Mint, MintedFor, WriteEntries;
    BothNewParts();
    MintFirst(s);
    BothUpdated(s.(pgcs := map[Pgc(1) := 1], nextPgc := 2));
  }

  lemma TwoRecordsReachable()
    ensures Reachable(TwoRecords())
  {
    hide Reachable, Upsert;
    var s := Tables(TABLES, map["r" := Record("first", None), "s" := Record("second", None)]);
    RegisteredReachable();
    BothNewParts();
    BothWritten(s);
    ReachOn(s, OpUpsert(BothNew()), TwoRecords());
  }

  lemma PgcsOfEither(db: Content, ids: set<RecordId>)
    requires db.records == TwoRecords().content.records && ids != {} && ids <= {"r", "s"}
    ensures PgcsOfRecords(db, ids) == {Pgc(1)}
  {
    var r := Member(ids);
    assert Pgc(1) in PgcsOfRecords(db, ids);
  }

  // ---- A type for one of them ----

  const TYPES: map<Key, Row> := map[Key("r", "") := NatureRow("G")]

  function Typed(): State {
    TwoRecords().(content := TwoRecords().content.(layer1 := PerCatalog(map[], map[], map[], TYPES)),
                  pgcs := map[Pgc(1) := 2], clock := 3)
  }

  lemma SaveOne(s: State, c: Catalog, x: Input)
    requires s.content.records == TwoRecords().content.records && s.pgcs.Keys == {Pgc(1)}
    requires s.content.layer1.Get(c) == map[] && RowFits(c, x.row) && InputChecks(x) && x.record in {"r", "s"}
    ensures Legal(s, OpSave(c, [x], true))
    ensures Next(s, OpSave(c, [x], true),
              s.(content := s.content.(layer1 := s.content.layer1.Set(c, map[KeyOf(c, x) := x.row])),
                 pgcs := map[Pgc(1) := s.clock], clock := s.clock + 1))
  {
    hide PgcsOfRecords, Touched, InputChecks, Overwrite;
    assert [x][..0] == [];
    assert UpsertRows(c, map[], [x], true) == map[KeyOf(c, x) := x.row];
    assert x in [x] && RecordIds([x]) == {x.record};
    PgcsOfEither(s.content, RecordIds([x]));
    TouchOne(s.pgcs, s.clock);
  }

  lemma OneRowGroup(db: Content, c: Catalog, p: Pgc, k: Key)
    requires !Measured(c) && GroupKeys(db, c, p) == {k} && db.layer1.Get(c).Keys == {k}
    ensures Populated(db, c) == {p}
    ensures forall l2: map<Pgc, Summary> :: l2 == map[p := Voted(Text(db.layer1.Get(c)[k]))] ==> UpToDate(db, l2, c, p)
  {
    assert k in GroupKeys(db, c, p);
    GroupOfOne(db, c, p, k);
    OneVote(SampleOf(db, c, p, k), Text(db.layer1.Get(c)[k]));
  }

  /** An import of a catalog with one row, not imported before. */
  lemma ImportOne(s: State, c: Catalog, p: Pgc, k: Key)
    requires !Measured(c) && GroupKeys(s.content, c, p) == {k} && s.content.layer1.Get(c).Keys == {k}
    requires p in s.pgcs && p.number > 0 && s.pgcs[p] > s.lastUpdate.Get(c) && s.layer2.Get(c) == map[]
    ensures var op := OpImport(Config(c, 100, false, None, true));
      && Legal(s, op)
      && Next(s, op, s.(layer2 := s.layer2.Set(c, map[p := Voted(Text(s.content.layer1.Get(c)[k]))]),
                        lastUpdate := s.lastUpdate.Set(c, s.clock), clock := s.clock + 1))
  {
    hide UpToDate, Populated, GroupKeys;
    OneRowGroup(s.content, c, p, k);
    var cfg := Config(c, 100, false, None, true);
    assert ReadSet(s, cfg) == {p};
    assert Removed(s, cfg) == {};
  }

  lemma TypedReachable()
    ensures Reachable(Typed())
  {
    hide Reachable, Legal, Next;
    var x := Input("r", "", NatureRow("G"));
    TwoRecordsReachable();
    SaveOne(TwoRecords(), Nature, x);
    ReachOn(TwoRecords(), OpSave(Nature, [x], true), Typed());
  }
}

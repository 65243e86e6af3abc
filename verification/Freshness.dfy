/** Layer 2 stays a faithful cache over every run of writers and imports. */
module Freshness {
  import opened Collections
  import opened Schema
  import opened Layers
  import opened Storage
  import opened Records
  import opened Layer1
  import opened Writers
  import opened Import

  // ---- Imports keep freshness ----

  lemma ImportValid(s: State, cfg: Config, t: State)
    requires Valid(s) && IsImport(s, cfg, t)
    ensures Valid(t) && (Positive(s) ==> Positive(t))
  {}

  lemma ImportOther(s: State, cfg: Config, t: State, c: Catalog, p: Pgc)
    requires IsImport(s, cfg, t) && c != cfg.catalog
    ensures t.layer2.Get(c) == s.layer2.Get(c) && t.lastUpdate.Get(c) == s.lastUpdate.Get(c)
    ensures Fresh(s, c, p) ==> Fresh(t, c, p)
  {}

  lemma ImportKeepsFresh(s: State, cfg: Config, t: State)
    requires Sound(s, cfg) || cfg.dryRun
    requires AllFresh(s) && IsImport(s, cfg, t)
    ensures AllFresh(t)
  {
    forall c: Catalog, p ensures Fresh(t, c, p) {
      assert Fresh(s, c, p);
      if c != cfg.catalog {
        ImportOther(s, cfg, t, c, p);
      } else if !cfg.dryRun && p in Populated(s.content, c) {
        FreshUnread(s, cfg);
        ReadIsPopulated(s, cfg);
        assert p in ReadSet(s, cfg) || UpToDate(s.content, s.layer2.Get(c), c, p);
        assert UpToDate(t.content, t.layer2.Get(c), c, p);
      }
    }
  }

  // ---- Runs ----

  datatype Op =
    | OpCreateTable(table: TableName, kind: DataType)
    | OpRegister(table: TableName, records: seq<RecordId>)
    | OpUpdateDatatype(table: TableName, kind: DataType)
    | OpRegisterPgcs(pgcs: seq<Pgc>)
    | OpCrossmatch(rows: seq<CrossmatchRow>)
    | OpAssign(records: seq<RecordId>)
    | OpUpsert(entries: seq<Entry>)
    | OpMerge(target: Pgc, sources: seq<Pgc>)
    | OpSave(catalog: Catalog, data: seq<Input>, namesECz: bool)
    | OpImport(config: Config)

  /** What the callers keep to: see each clause's writer. */
  ghost predicate Legal(s: State, op: Op) {
    match op
    case OpRegister(table, records) => UnmarkedAnswers(s, RegisterRecords(s, table, records).0.content)
    case OpUpdateDatatype(table, kind) => UnmarkedAnswers(s, UpdateDatatype(s, table, kind).content)
    case OpRegisterPgcs(pgcs) => forall p | p in pgcs :: p.number > 0
    case OpUpsert(entries) => IsDict(entries)
    case OpSave(c, data, _) => forall x | x in data :: RowFits(c, x.row)
    case OpImport(cfg) => cfg.dryRun || (cfg.limit >= 1 && SinceOf(s, cfg) <= s.lastUpdate.Get(cfg.catalog))
    case _ => true
  }

  ghost predicate Next(s: State, op: Op, t: State) {
    match op
    case OpCreateTable(table, kind) => t == CreateTable(s, table, kind)
    case OpRegister(table, records) => t == RegisterRecords(s, table, records).0
    case OpUpdateDatatype(table, kind) => t == UpdateDatatype(s, table, kind)
    case OpRegisterPgcs(pgcs) => t == RegisterIds(s, pgcs).0
    case OpCrossmatch(rows) => t == SetCrossmatch(s, rows).0
    case OpAssign(records) =>
      exists order :: Lists(order, NewRows(s, Elements(records))) && t == Assign(s, records, order).0
    case OpUpsert(entries) => t == Upsert(s, entries).0
    case OpMerge(target, sources) => t == Merge(s, target, sources).0
    case OpSave(c, data, namesECz) => t == SaveStructured(s, c, data, namesECz).0
    case OpImport(cfg) => IsImport(s, cfg, t)
  }

  lemma SameKeeps(s: State)
    requires Valid(s)
    ensures Keeps(s, s, {})
  {
    SkipClashKeeps(s, s.nextPgc);
    assert s.(nextPgc := s.nextPgc) == s;
  }

  /** The two operations that may give records another class, and mark nothing. */
  predicate Reclassifies(op: Op) {
    op.OpRegister? || op.OpUpdateDatatype?
  }

  /** Every other operation but the import is a write that touches what it changes. */
  lemma WriterKeeps(s: State, op: Op, t: State) returns (touched: set<Pgc>)
    requires Valid(s) && Legal(s, op) && Next(s, op, t) && !op.OpImport? && !Reclassifies(op)
    ensures Keeps(s, t, touched)
  {
    hide Keeps, Valid;
    touched := {};
    SameKeeps(s);
    match op
    case OpCreateTable(table, kind) => CreateTableKeeps(s, table, kind);
    case OpRegisterPgcs(pgcs) => RegisterIdsKeeps(s, pgcs);
    case OpCrossmatch(rows) => CrossmatchKeeps(s, rows);
    case OpAssign(records) =>
      var order :| Lists(order, NewRows(s, Elements(records))) && t == Assign(s, records, order).0;
      touched := AssignTouches(s, records, order);
      AssignKeeps(s, records, order);
    case OpUpsert(entries) =>
      touched := UpsertTouches(s, entries);
      UpsertKeeps(s, entries);
    case OpMerge(target, sources) =>
      if Merge(s, target, sources).1.Merged? {
        touched := {target} + Elements(sources);
        MergeKeeps(s, target, Elements(sources));
      }
    case OpSave(c, data, namesECz) =>
      if Storable(s.content, data) {
        touched := PgcsOfRecords(s.content, RecordIds(data));
        SaveKeeps(s, c, data, namesECz);
      }
  }

  ghost predicate Good(s: State) {
    Valid(s) && Positive(s) && AllFresh(s)
  }

  lemma ReclassifyParts(s: State, op: Op, t: State)
    requires Valid(s) && Reclassifies(op) && Next(s, op, t)
    ensures t == s.(content := t.content) && SameButClasses(s.content, t.content) && ValidContent(t.content)
    ensures Legal(s, op) <==> UnmarkedAnswers(s, t.content)
  {
    hide Valid, SameButClasses, KeepsClasses, RegisterGuard, DatatypeGuard, UnmarkedAnswers;
    match op
    case OpRegister(table, records) => RegisterClasses(s, table, records);
    case OpUpdateDatatype(table, kind) => DatatypeClasses(s, table, kind);
  }

  lemma SamePgcsValid(s: State, t: State)
    requires Valid(s) && t == s.(content := t.content) && SameButClasses(s.content, t.content) && ValidContent(t.content)
    ensures Valid(t)
  {}

  /** A change of classes keeps the state good iff it is legal. */
  lemma ReclassifyGoodIff(s: State, op: Op, t: State)
    requires Good(s) && Reclassifies(op) && Next(s, op, t)
    ensures Good(t) <==> Legal(s, op)
  {
    hide Next, Legal, Valid, AllFresh, SameButClasses, UnmarkedAnswers;
    ReclassifyParts(s, op, t);
    SamePgcsValid(s, t);
    ReclassifiedFreshIff(s, t);
  }

  lemma StepKeepsGood(s: State, op: Op, t: State)
    requires Good(s) && Legal(s, op) && Next(s, op, t)
    ensures Good(t)
  {
    hide Next, Valid, UnmarkedAnswers;
    if Reclassifies(op) {
      ReclassifyGoodIff(s, op, t);
    } else if op.OpImport? {
      NextImport(s, op, t);
      ImportValid(s, op.config, t);
      ImportKeepsFresh(s, op.config, t);
    } else {
      var touched := WriterKeeps(s, op, t);
      forall c: Catalog, p ensures Fresh(t, c, p) {
        WritesKeepFresh(s, t, touched, c, p);
      }
    }
  }

  lemma NextImport(s: State, op: Op, t: State)
    requires op.OpImport? && Next(s, op, t)
    ensures IsImport(s, op.config, t)
  {}

  /** A history of the database from its migrated, empty state. */
  ghost predicate IsRun(states: seq<State>, ops: seq<Op>) {
    && |states| == |ops| + 1
    && states[0] == Empty()
    && forall i | 0 <= i < |ops| :: Legal(states[i], ops[i]) && Next(states[i], ops[i], states[i + 1])
  }

  lemma EmptyIsGood()
    ensures Good(Empty())
  {
    forall c: Catalog ensures ValidTable(c, Empty().content.layer1.Get(c), Empty().content.records) {}
    forall c: Catalog, p ensures Fresh(Empty(), c, p) {
      assert Empty().content.layer1.Get(c) == map[];
    }
  }

  /** Freshness over every run. */
  lemma {:induction false} RunsAreFresh(states: seq<State>, ops: seq<Op>, i: nat)
    requires IsRun(states, ops) && i < |states|
    ensures Good(states[i])
  {
    if i == 0 {
      EmptyIsGood();
    } else {
      RunsAreFresh(states, ops, i - 1);
      StepKeepsGood(states[i - 1], ops[i - 1], states[i]);
    }
  }

  /** After any history an import with cleanup leaves its catalog as computed from scratch. */
  lemma RunsImportExactly(states: seq<State>, ops: seq<Op>, i: nat, full: map<Pgc, Summary>)
    requires IsRun(states, ops) && i < |ops|
    requires ops[i].OpImport? && !ops[i].config.dryRun && ops[i].config.cleanup
    requires IsRecompute(states[i].content, ops[i].config.catalog, full)
    ensures var c := ops[i].config.catalog;
            && IsRecompute(states[i + 1].content, c, states[i + 1].layer2.Get(c))
            && (Measured(c) || NoTies(states[i].content, c) ==> states[i + 1].layer2.Get(c) == full)
  {
    RunsAreFresh(states, ops, i);
    assert Good(states[i]) && Legal(states[i], ops[i]);
    NextImport(states[i], ops[i], states[i + 1]);
    forall p ensures Fresh(states[i], ops[i].config.catalog, p) {}
    IncrementalEqualsFull(states[i], ops[i].config, states[i + 1], full);
  }

  // ---- Imports of different catalogs, and repeated imports ----

  lemma ImportedFrame(s: State, r: State, cfg: Config, after: map<Pgc, Summary>)
    requires s.content == r.content && s.pgcs == r.pgcs
    requires s.layer2.Get(cfg.catalog) == r.layer2.Get(cfg.catalog)
    requires s.lastUpdate.Get(cfg.catalog) == r.lastUpdate.Get(cfg.catalog)
    ensures Imported(s, cfg, after) <==> Imported(r, cfg, after)
  {
    assert ReadSet(s, cfg) == ReadSet(r, cfg);
    assert Removed(s, cfg) == Removed(r, cfg);
  }

  /** The state a non-dry import of `cfg` with result `after` leads to. */
  function AfterImport(s: State, cfg: Config, after: map<Pgc, Summary>): State {
    s.(layer2 := s.layer2.Set(cfg.catalog, after),
       lastUpdate := s.lastUpdate.Set(cfg.catalog, s.clock), clock := s.clock + 1)
  }

  /** Imports of distinct catalogs commute, up to the times of their watermarks. */
  lemma ImportsCommute(s: State, a: Config, s1: State, b: Config, s2: State) returns (r1: State, r2: State)
    requires !a.dryRun && !b.dryRun && a.catalog != b.catalog
    requires IsImport(s, a, s1) && IsImport(s1, b, s2)
    ensures IsImport(s, b, r1) && IsImport(r1, a, r2)
    ensures r2 == s2.(lastUpdate := r2.lastUpdate)
    ensures forall c | c != a.catalog && c != b.catalog :: r2.lastUpdate.Get(c) == s2.lastUpdate.Get(c)
  {
    var la, lb := s1.layer2.Get(a.catalog), s2.layer2.Get(b.catalog);
    ImportedFrame(s, s1, b, lb);
    r1 := AfterImport(s, b, lb);
    ImportedFrame(s, r1, a, la);
    r2 := AfterImport(r1, a, la);
    SamePerCatalog(r2.layer2, s2.layer2);
  }

  /** Right after an import nothing is left to read and, after a cleanup, nothing to delete. */
  lemma SecondImportIsIdle(s: State, cfg: Config, t: State, again: Config)
    requires Valid(s) && !cfg.dryRun && IsImport(s, cfg, t)
    requires again.catalog == cfg.catalog && again.since == None
    ensures ReadSet(t, again) == {}
    ensures cfg.cleanup ==> Removed(t, again) == {}
  {
    ReadIsPopulated(s, cfg);
    assert forall p | p in t.pgcs :: t.pgcs[p] <= t.lastUpdate.Get(cfg.catalog);
    assert t.content == s.content;
  }
}

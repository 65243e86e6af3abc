/** The progress report: the funnel of records, and the layer-2 counters of each catalog. */
module ProgressCounters {
  import opened Collections
  import opened Schema
  import opened Layers
  import opened Storage
  import opened Records
  import opened Assignment
  import opened Import
  import opened Freshness

  // ---- Per catalog ----

  datatype CatalogProgress = CatalogProgress(structured: nat, inLayer2: nat, pending: nat)

  predicate InTable(st: State, r: RecordId, table: TableName) {
    r in st.content.records && st.content.records[r].table == table
  }

  predicate Carries(st: State, r: RecordId) {
    r in st.content.records && st.content.records[r].pgc.Some?
  }

  function PgcOf(st: State, r: RecordId): Pgc
    requires Carries(st, r)
  {
    st.content.records[r].pgc.value
  }

  /** The distinct records of a table that have a row in the catalog. */
  function StructuredRecords(st: State, c: Catalog, table: TableName): set<RecordId> {
    set k | k in st.content.layer1.Get(c) && InTable(st, k.record, table) :: k.record
  }

  predicate HasLayer2Row(st: State, c: Catalog, r: RecordId) {
    Carries(st, r) && PgcOf(st, r) in st.layer2.Get(c)
  }

  predicate IsPending(st: State, c: Catalog, r: RecordId) {
    Carries(st, r) &&
    (PgcOf(st, r) !in st.layer2.Get(c) ||
     (PgcOf(st, r) in st.pgcs && st.pgcs[PgcOf(st, r)] > st.lastUpdate.Get(c)))
  }

  function InLayer2Records(st: State, c: Catalog, table: TableName): set<RecordId> {
    set r | r in StructuredRecords(st, c, table) && HasLayer2Row(st, c, r)
  }

  function PendingRecords(st: State, c: Catalog, table: TableName): set<RecordId> {
    set r | r in StructuredRecords(st, c, table) && IsPending(st, c, r)
  }

  function ProgressOf(st: State, c: Catalog, table: TableName): CatalogProgress {
    CatalogProgress(|StructuredRecords(st, c, table)|, |InLayer2Records(st, c, table)|, |PendingRecords(st, c, table)|)
  }

  /** The groups of a query grouped by table: those with a structured record that pass the name filter. */
  function GroupsOf(st: State, c: Catalog, names: Option<seq<TableName>>): set<TableName> {
    set t | t in st.content.tables && (names.Some? ==> t in names.value) && StructuredRecords(st, c, t) != {}
  }

  function CatalogReport(st: State, c: Catalog, names: Option<seq<TableName>>): map<TableName, CatalogProgress> {
    map t | t in GroupsOf(st, c, names) :: ProgressOf(st, c, t)
  }

  lemma StructuredIsPopulated(st: State, c: Catalog, table: TableName, r: RecordId)
    requires r in StructuredRecords(st, c, table) && Carries(st, r)
    ensures PgcOf(st, r) in Populated(st.content, c)
  {
    var k :| k in st.content.layer1.Get(c) && k.record == r;
  }

  /** A zero counter is a certificate: every PGC with a structured record in the table is up to date. */
  lemma ZeroPendingCertifies(st: State, c: Catalog, table: TableName, r: RecordId)
    requires AllFresh(st) && ProgressOf(st, c, table).pending == 0
    requires r in StructuredRecords(st, c, table) && Carries(st, r)
    ensures UpToDate(st.content, st.layer2.Get(c), c, PgcOf(st, r))
  {
    StructuredIsPopulated(st, c, table, r);
    assert Fresh(st, c, PgcOf(st, r));
    assert r !in PendingRecords(st, c, table);
  }

  /** With every table's counter at zero, layer 2 lacks nothing that a computation from scratch would have. */
  lemma AllZeroCertifiesCatalog(st: State, c: Catalog)
    requires Valid(st) && AllFresh(st)
    requires forall table | table in st.content.tables :: ProgressOf(st, c, table).pending == 0
    ensures forall p | p in Populated(st.content, c) :: UpToDate(st.content, st.layer2.Get(c), c, p)
  {
    forall p | p in Populated(st.content, c) ensures UpToDate(st.content, st.layer2.Get(c), c, p) {
      PopulatedGroup(st.content, c, p);
      var k := Member(GroupKeys(st.content, c, p));
      var table := st.content.records[k.record].table;
      assert k.record in StructuredRecords(st, c, table);
      ZeroPendingCertifies(st, c, table, k.record);
    }
  }

  /** Right after an import no table has anything pending, and every structured record with a PGC counts as in layer 2. */
  lemma ImportEmptiesCounters(s: State, cfg: Config, t: State, table: TableName)
    requires Valid(s) && AllFresh(s) && Sound(s, cfg) && !cfg.dryRun && IsImport(s, cfg, t)
    ensures ProgressOf(t, cfg.catalog, table).pending == 0
    ensures ProgressOf(t, cfg.catalog, table).inLayer2 ==
            |set r | r in StructuredRecords(t, cfg.catalog, table) && Carries(t, r)|
  {
    var c := cfg.catalog;
    FreshUnread(s, cfg);
    ReadIsPopulated(s, cfg);
    forall r | r in StructuredRecords(t, c, table) && Carries(t, r) ensures HasLayer2Row(t, c, r) && !IsPending(t, c, r) {
      StructuredIsPopulated(t, c, table, r);
      var p := PgcOf(t, r);
      assert p in ReadSet(s, cfg) || UpToDate(s.content, s.layer2.Get(c), c, p);
    }
    assert PendingRecords(t, c, table) == {};
    assert InLayer2Records(t, c, table) == (set r | r in StructuredRecords(t, c, table) && Carries(t, r));
  }

  // ---- The funnel ----

  datatype Funnel = Funnel(total: nat, unprocessed: nat, pendingTriage: nat, resolvedUnsubmitted: nat, submitted: nat)

  function RecordsIn(st: State, table: TableName): set<RecordId> {
    set r | r in st.content.records && st.content.records[r].table == table
  }

  predicate Pending(st: State, r: RecordId) {
    r in st.crossmatch && st.crossmatch[r].triage == Triage.Pending
  }

  predicate ResolvedUnsubmitted(st: State, r: RecordId) {
    r in st.crossmatch && st.crossmatch[r].triage == Resolved && !Carries(st, r)
  }

  function UnprocessedIn(st: State, table: TableName): set<RecordId> {
    set r | r in RecordsIn(st, table) && r !in st.crossmatch
  }

  function PendingIn(st: State, table: TableName): set<RecordId> {
    set r | r in RecordsIn(st, table) && Pending(st, r)
  }

  function UnsubmittedIn(st: State, table: TableName): set<RecordId> {
    set r | r in RecordsIn(st, table) && ResolvedUnsubmitted(st, r)
  }

  function SubmittedIn(st: State, table: TableName): set<RecordId> {
    set r | r in RecordsIn(st, table) && Carries(st, r)
  }

  function FunnelOf(st: State, table: TableName): Funnel {
    Funnel(|RecordsIn(st, table)|, |UnprocessedIn(st, table)|, |PendingIn(st, table)|, |UnsubmittedIn(st, table)|,
           |SubmittedIn(st, table)|)
  }

  /** Submitted although the crossmatch is missing or pending. */
  function Irregular(st: State, table: TableName): set<RecordId> {
    set r | r in RecordsIn(st, table) && Carries(st, r) && (r !in st.crossmatch || Pending(st, r))
  }

  lemma DisjointSizes<T>(a: set<T>, b: set<T>, c: set<T>, d: set<T>)
    requires a !! b !! c !! d
    ensures |a + b + c + d| == |a| + |b| + |c| + |d|
  {
    assert |a + b| == |a| + |b|;
    assert |a + b + c| == |a + b| + |c|;
  }

  lemma StagesCover(st: State, table: TableName)
    ensures var regular := SubmittedIn(st, table) - Irregular(st, table);
            && UnprocessedIn(st, table) !! PendingIn(st, table) !! UnsubmittedIn(st, table) !! regular
            && UnprocessedIn(st, table) + PendingIn(st, table) + UnsubmittedIn(st, table) + regular == RecordsIn(st, table)
  {
  }

  lemma IrregularIsSubmitted(st: State, table: TableName)
    ensures |SubmittedIn(st, table) - Irregular(st, table)| == |SubmittedIn(st, table)| - |Irregular(st, table)|
  {
    assert (SubmittedIn(st, table) - Irregular(st, table)) + Irregular(st, table) == SubmittedIn(st, table);
  }

  /** The four stages count every record once, and the irregular ones once more. */
  lemma FunnelAccounting(st: State, table: TableName)
    ensures var f := FunnelOf(st, table);
            f.unprocessed + f.pendingTriage + f.resolvedUnsubmitted + f.submitted == f.total + |Irregular(st, table)|
  {
    hide RecordsIn, UnprocessedIn, PendingIn, UnsubmittedIn, SubmittedIn, Irregular;
    StagesCover(st, table);
    IrregularIsSubmitted(st, table);
    DisjointSizes(UnprocessedIn(st, table), PendingIn(st, table), UnsubmittedIn(st, table),
                  SubmittedIn(st, table) - Irregular(st, table));
  }

  /** Each counter is the number of the records that its stage is about. */
  ghost predicate IsFunnel(st: State, table: TableName, f: Funnel) {
    var (records, crossmatch) := (st.content.records, st.crossmatch);
    && f.total == |set r | r in records && records[r].table == table|
    && f.unprocessed == |set r | r in records && records[r].table == table && r !in crossmatch|
    && f.pendingTriage ==
         |set r | r in records && records[r].table == table && r in crossmatch && crossmatch[r].triage == Triage.Pending|
    && f.resolvedUnsubmitted ==
         |set r | r in records && records[r].table == table && r in crossmatch && crossmatch[r].triage == Resolved
                  && records[r].pgc.None?|
    && f.submitted == |set r | r in records && records[r].table == table && records[r].pgc.Some?|
  }

  lemma FunnelCounts(st: State, table: TableName)
    ensures IsFunnel(st, table, FunnelOf(st, table))
  {
    var (records, crossmatch) := (st.content.records, st.crossmatch);
    assert RecordsIn(st, table) == set r | r in records && records[r].table == table;
    assert UnprocessedIn(st, table) == set r | r in records && records[r].table == table && r !in crossmatch;
    assert PendingIn(st, table) ==
      set r | r in records && records[r].table == table && r in crossmatch && crossmatch[r].triage == Triage.Pending;
    assert UnsubmittedIn(st, table) ==
      set r | r in records && records[r].table == table && r in crossmatch && crossmatch[r].triage == Resolved
              && records[r].pgc.None?;
    assert SubmittedIn(st, table) == set r | r in records && records[r].table == table && records[r].pgc.Some?;
  }

  /** The same for the counters of a catalog: a record counts once, however many rows it has. */
  ghost predicate IsProgress(st: State, c: Catalog, table: TableName, p: CatalogProgress) {
    var records := st.content.records;
    && p.structured == |set r | r in records && records[r].table == table && HasLayer1Row(st, c, r)|
    && p.inLayer2 ==
         |set r | r in records && records[r].table == table && HasLayer1Row(st, c, r)
                  && records[r].pgc.Some? && records[r].pgc.value in st.layer2.Get(c)|
    && p.pending ==
         |set r | r in records && records[r].table == table && HasLayer1Row(st, c, r) && records[r].pgc.Some?
                  && (records[r].pgc.value !in st.layer2.Get(c) || Marked(st, c, records[r].pgc.value))|
  }

  ghost predicate HasLayer1Row(st: State, c: Catalog, r: RecordId) {
    exists k :: k in st.content.layer1.Get(c) && k.record == r
  }

  lemma ProgressCounts(st: State, c: Catalog, table: TableName)
    ensures IsProgress(st, c, table, ProgressOf(st, c, table))
  {
    var records := st.content.records;
    forall r ensures r in StructuredRecords(st, c, table) <==>
        r in records && records[r].table == table && HasLayer1Row(st, c, r)
    {
      if r in records && records[r].table == table && HasLayer1Row(st, c, r) {
        var k :| k in st.content.layer1.Get(c) && k.record == r;
      }
    }
    hide StructuredRecords, HasLayer1Row;
    assert StructuredRecords(st, c, table) == set r | r in records && records[r].table == table && HasLayer1Row(st, c, r);
    SomeStructured(st, c, table);
    hide InLayer2Records, PendingRecords;
    assert InLayer2Records(st, c, table) ==
      set r | r in records && records[r].table == table && HasLayer1Row(st, c, r)
              && records[r].pgc.Some? && records[r].pgc.value in st.layer2.Get(c);
    assert PendingRecords(st, c, table) ==
      set r | r in records && records[r].table == table && HasLayer1Row(st, c, r) && records[r].pgc.Some?
              && (records[r].pgc.value !in st.layer2.Get(c) || Marked(st, c, records[r].pgc.value));
  }

  lemma SomeStructured(st: State, c: Catalog, table: TableName)
    requires StructuredRecords(st, c, table) ==
      set r | r in st.content.records && st.content.records[r].table == table && HasLayer1Row(st, c, r)
    ensures var records := st.content.records;
      && InLayer2Records(st, c, table) ==
           set r | r in records && records[r].table == table && HasLayer1Row(st, c, r)
                   && records[r].pgc.Some? && records[r].pgc.value in st.layer2.Get(c)
      && PendingRecords(st, c, table) ==
           set r | r in records && records[r].table == table && HasLayer1Row(st, c, r) && records[r].pgc.Some?
                   && (records[r].pgc.value !in st.layer2.Get(c) || Marked(st, c, records[r].pgc.value))
  {
    hide StructuredRecords, HasLayer1Row;
  }

  // ---- How records move through the funnel ----

  lemma MovedSizes<T>(from: set<T>, to: set<T>, moved: set<T>)
    requires moved <= from && moved !! to
    ensures |from - moved| == |from| - |moved| && |to + moved| == |to| + |moved|
  {
    assert (from - moved) + moved == from;
  }

  /** Resolving a pending record moves it one stage on. */
  lemma ResolvingMovesOne(s: State, r: RecordId, candidates: seq<int>, table: TableName)
    requires InTable(s, r, table) && !Carries(s, r) && r in s.crossmatch && s.crossmatch[r].triage == Triage.Pending
    ensures var t, f := SetCrossmatch(s, [CrossmatchRow(r, Resolved, candidates)]).0, FunnelOf(s, table);
      && f.pendingTriage > 0
      && FunnelOf(t, table) ==
           f.(pendingTriage := f.pendingTriage - 1, resolvedUnsubmitted := f.resolvedUnsubmitted + 1)
  {
    hide RecordsIn, UnprocessedIn, PendingIn, UnsubmittedIn, SubmittedIn;
    var rows := [CrossmatchRow(r, Resolved, candidates)];
    StoreOne(s, rows[0]);
    var t := SetCrossmatch(s, rows).0;
    StagesResolved(s, t, r, table, Stored(rows[0]));
    MovedSizes(PendingIn(s, table), UnsubmittedIn(s, table), {r});
  }

  lemma StoreOne(s: State, row: CrossmatchRow)
    requires row.record in s.content.records
    ensures SetCrossmatch(s, [row]).0 == s.(crossmatch := s.crossmatch[row.record := Stored(row)])
  {
    assert [row][..0] == [] && forall x | x in [row] :: x == row;
    assert StoreRows(s.crossmatch, [row][..0]) == s.crossmatch;
  }

  lemma StagesResolved(s: State, t: State, r: RecordId, table: TableName, result: Crossmatch)
    requires InTable(s, r, table) && !Carries(s, r) && r in s.crossmatch && s.crossmatch[r].triage == Triage.Pending
    requires t == s.(crossmatch := s.crossmatch[r := result]) && result.triage == Resolved
    ensures RecordsIn(t, table) == RecordsIn(s, table) && SubmittedIn(t, table) == SubmittedIn(s, table)
    ensures UnprocessedIn(t, table) == UnprocessedIn(s, table)
    ensures {r} <= PendingIn(s, table) && {r} !! UnsubmittedIn(s, table)
    ensures PendingIn(t, table) == PendingIn(s, table) - {r}
    ensures UnsubmittedIn(t, table) == UnsubmittedIn(s, table) + {r}
  {
    assert RecordsIn(t, table) == RecordsIn(s, table) && r in RecordsIn(s, table);
    forall q ensures Carries(t, q) == Carries(s, q) {}
    hide RecordsIn, Carries;
    assert UnprocessedIn(t, table) == UnprocessedIn(s, table);
    assert PendingIn(t, table) == PendingIn(s, table) - {r};
    assert UnsubmittedIn(t, table) == UnsubmittedIn(s, table) + {r};
  }

  /** A successful assignment moves on its records of the table that had no PGC, and no others. */
  lemma AssigningMoves(s: State, ids: seq<RecordId>, order: seq<RecordId>, table: TableName)
    requires Valid(s) && Lists(order, NewRows(s, Elements(ids))) && Assign(s, ids, order).1 == Assigned
    ensures var t, f := Assign(s, ids, order).0, FunnelOf(s, table);
      var moved := |set r | r in ids && InTable(s, r, table) && !Carries(s, r)|;
      && moved <= f.resolvedUnsubmitted
      && FunnelOf(t, table) ==
           f.(resolvedUnsubmitted := f.resolvedUnsubmitted - moved, submitted := f.submitted + moved)
  {
    hide Assign, Valid;
    var t := Assign(s, ids, order).0;
    var moved := set r | r in ids && InTable(s, r, table) && !Carries(s, r);
    AssignedStages(s, ids, order);
    StagesKept(s, t, table);
    StagesMoved(s, t, ids, table, moved);
    hide RecordsIn, UnprocessedIn, PendingIn, UnsubmittedIn, SubmittedIn;
    MovedSizes(UnsubmittedIn(s, table), SubmittedIn(s, table), moved);
  }

  /** The same crossmatch, and the same records in the same tables; the records of `ids` have PGCs now. */
  ghost predicate Moves(s: State, t: State, ids: seq<RecordId>) {
    && t.crossmatch == s.crossmatch && t.content.records.Keys == s.content.records.Keys
    && (forall r | r in s.content.records :: t.content.records[r].table == s.content.records[r].table
          && (t.content.records[r].pgc.Some? <==> r in ids || s.content.records[r].pgc.Some?))
    && (forall r | r in ids :: r in s.crossmatch && s.crossmatch[r].triage == Resolved)
  }

  lemma StagesKept(s: State, t: State, table: TableName)
    requires t.crossmatch == s.crossmatch && t.content.records.Keys == s.content.records.Keys
    requires forall r | r in s.content.records :: t.content.records[r].table == s.content.records[r].table
    ensures RecordsIn(t, table) == RecordsIn(s, table)
    ensures UnprocessedIn(t, table) == UnprocessedIn(s, table) && PendingIn(t, table) == PendingIn(s, table)
  {
    assert RecordsIn(t, table) == RecordsIn(s, table);
    hide RecordsIn;
  }

  lemma StagesMoved(s: State, t: State, ids: seq<RecordId>, table: TableName, moved: set<RecordId>)
    requires Moves(s, t, ids) && moved == set r | r in ids && InTable(s, r, table) && !Carries(s, r)
    ensures moved <= UnsubmittedIn(s, table) && moved !! SubmittedIn(s, table)
    ensures UnsubmittedIn(t, table) == UnsubmittedIn(s, table) - moved
    ensures SubmittedIn(t, table) == SubmittedIn(s, table) + moved
  {
    forall r ensures InTable(t, r, table) <==> InTable(s, r, table) {}
    forall r | InTable(s, r, table) ensures Carries(t, r) <==> r in ids || Carries(s, r) {}
    forall r ensures r in RecordsIn(s, table) <==> InTable(s, r, table) {}
    forall r ensures r in RecordsIn(t, table) <==> InTable(t, r, table) {}
    hide RecordsIn, InTable, Carries;
    assert UnsubmittedIn(t, table) == UnsubmittedIn(s, table) - moved;
    assert SubmittedIn(t, table) == SubmittedIn(s, table) + moved;
  }

  lemma AssignedStages(s: State, ids: seq<RecordId>, order: seq<RecordId>)
    requires Valid(s) && Lists(order, NewRows(s, Elements(ids))) && Assign(s, ids, order).1 == Assigned
    ensures Moves(s, Assign(s, ids, order).0, ids)
  {
    if ids != [] {
      AssignExactly(s, ids, order);
      forall r | r in s.content.records ensures r in ids ==> Assign(s, ids, order).0.content.records[r].pgc.Some? {
        AssignedRecords(s, ids, order, r);
      }
      forall r | r in ids ensures r in s.crossmatch && s.crossmatch[r].triage == Resolved {
        assert r in Elements(ids) && r !in InvalidRows(s, Elements(ids));
      }
    }
  }

  function FunnelReport(st: State, names: Option<seq<TableName>>): map<TableName, Funnel> {
    map t | t in st.content.tables && (names.Some? ==> t in names.value) && RecordsIn(st, t) != {} :: FunnelOf(st, t)
  }

  // ---- The whole report ----

  /** Each report lists just the tables that pass the filter and have something to count. */
  lemma ReportsList(st: State, c: Catalog, names: Option<seq<TableName>>, table: TableName)
    requires ValidContent(st.content)
    ensures table in FunnelReport(st, names) <==>
              (names.Some? ==> table in names.value) && exists r :: r in st.content.records && InTable(st, r, table)
    ensures table in CatalogReport(st, c, names) <==>
              (names.Some? ==> table in names.value) &&
              exists k :: k in st.content.layer1.Get(c) && InTable(st, k.record, table)
  {
    if r :| r in st.content.records && InTable(st, r, table) {
      assert r in RecordsIn(st, table);
    }
    if RecordsIn(st, table) != {} {
      var r := Member(RecordsIn(st, table));
      assert InTable(st, r, table);
    }
    if k :| k in st.content.layer1.Get(c) && InTable(st, k.record, table) {
      assert k.record in StructuredRecords(st, c, table);
    }
    if StructuredRecords(st, c, table) != {} {
      var r := Member(StructuredRecords(st, c, table));
    }
  }

  /** The counters of a table: `others` are those of the catalogs that have no layer-2 table. */
  datatype TableProgress =
    TableProgress(funnel: Funnel, catalogs: PerCatalog<CatalogProgress>, others: map<string, CatalogProgress>)

  const CATALOGS: seq<Catalog> := [Designation, Icrs, Redshift, Nature]

  const NO_PROGRESS: PerCatalog<CatalogProgress> :=
    PerCatalog(CatalogProgress(0, 0, 0), CatalogProgress(0, 0, 0), CatalogProgress(0, 0, 0), CatalogProgress(0, 0, 0))

  lemma Unlisted(st: State, c: Catalog, names: Option<seq<TableName>>, table: TableName)
    requires ValidContent(st.content) && table in FunnelReport(st, names) && table !in CatalogReport(st, c, names)
    ensures ProgressOf(st, c, table) == CatalogProgress(0, 0, 0)
  {
    assert StructuredRecords(st, c, table) == {};
    assert InLayer2Records(st, c, table) == {} && PendingRecords(st, c, table) == {};
  }

  lemma ListedHasFunnel(st: State, c: Catalog, names: Option<seq<TableName>>)
    requires ValidContent(st.content)
    ensures CatalogReport(st, c, names).Keys <= FunnelReport(st, names).Keys
  {
    forall t | t in CatalogReport(st, c, names) ensures t in FunnelReport(st, names) {
      var r := Member(StructuredRecords(st, c, t));
      assert r in RecordsIn(st, t);
    }
  }

  /** The counters of one catalog written over the zeros of a result that has every table already. */
  method AddCatalog(c: Catalog, counters: map<TableName, CatalogProgress>, before: map<TableName, TableProgress>)
    returns (result: map<TableName, TableProgress>)
    requires counters.Keys <= before.Keys
    ensures Added(c, counters, before, result)
  {
    result := before;
    var todo := counters.Keys;
    while todo != {}
      invariant todo <= counters.Keys && result.Keys == before.Keys
      invariant forall t | t in result :: result[t] ==
                  if t in counters && t !in todo then before[t].(catalogs := before[t].catalogs.Set(c, counters[t]))
                  else before[t]
      decreases todo
    {
      var t :| t in todo;
      result := result[t := result[t].(catalogs := result[t].catalogs.Set(c, counters[t]))];
      todo := todo - {t};
    }
  }

  /** The report with the counters of the catalogs in `done` filled in. */
  ghost predicate FilledIn(st: State, names: Option<seq<TableName>>, done: seq<Catalog>,
                           result: map<TableName, TableProgress>) {
    && result.Keys == FunnelReport(st, names).Keys
    && forall t | t in result ::
         && result[t].funnel == FunnelOf(st, t)
         && forall c: Catalog ::
              result[t].catalogs.Get(c) == if c in done then ProgressOf(st, c, t) else CatalogProgress(0, 0, 0)
  }

  /** The counters of one more catalog, written over the zeros. */
  ghost predicate Added(c: Catalog, counters: map<TableName, CatalogProgress>, before: map<TableName, TableProgress>,
                        result: map<TableName, TableProgress>) {
    && result.Keys == before.Keys
    && forall t | t in result ::
         result[t] == if t in counters then before[t].(catalogs := before[t].catalogs.Set(c, counters[t])) else before[t]
  }

  lemma ReportedOrNothing(st: State, c: Catalog, names: Option<seq<TableName>>, table: TableName)
    requires ValidContent(st.content) && table in FunnelReport(st, names)
    ensures ProgressOf(st, c, table) ==
      if table in CatalogReport(st, c, names) then CatalogReport(st, c, names)[table] else CatalogProgress(0, 0, 0)
  {
    hide FunnelReport, ValidContent, ProgressOf;
    if table !in CatalogReport(st, c, names) {
      Unlisted(st, c, names, table);
    }
  }

  lemma FillOne(st: State, names: Option<seq<TableName>>, done: seq<Catalog>, c: Catalog,
                before: map<TableName, TableProgress>, result: map<TableName, TableProgress>)
    requires ValidContent(st.content) && FilledIn(st, names, done, before) && c !in done
    requires Added(c, CatalogReport(st, c, names), before, result)
    ensures FilledIn(st, names, done + [c], result)
  {
    hide FunnelOf, ProgressOf, ValidContent, FunnelReport, CatalogReport;
    forall t | t in result
      ensures result[t].funnel == FunnelOf(st, t)
      ensures forall d: Catalog :: result[t].catalogs.Get(d) ==
                if d in done + [c] then ProgressOf(st, d, t) else CatalogProgress(0, 0, 0)
    {
      ReportedOrNothing(st, c, names, t);
      SetSame(before[t].catalogs, c);
      assert result[t] == before[t].(catalogs := before[t].catalogs.Set(c, ProgressOf(st, c, t)));
    }
  }

  lemma FilledKeys(st: State, names: Option<seq<TableName>>, done: seq<Catalog>, result: map<TableName, TableProgress>)
    requires FilledIn(st, names, done, result)
    ensures result.Keys == FunnelReport(st, names).Keys
  {}

  lemma FilledNone(st: State, names: Option<seq<TableName>>, zeros: map<string, CatalogProgress>,
                   result: map<TableName, TableProgress>)
    requires result ==
      map t | t in FunnelReport(st, names) :: TableProgress(FunnelReport(st, names)[t], NO_PROGRESS, zeros)
    ensures FilledIn(st, names, [], result)
  {
    hide FunnelOf, ProgressOf;
  }

  lemma EveryCatalog(c: Catalog)
    ensures c in CATALOGS
  {
    match c
    case Designation => assert CATALOGS[0] == c;
    case Icrs => assert CATALOGS[1] == c;
    case Redshift => assert CATALOGS[2] == c;
    case Nature => assert CATALOGS[3] == c;
  }

  lemma FilledAll(st: State, names: Option<seq<TableName>>, result: map<TableName, TableProgress>)
    requires FilledIn(st, names, CATALOGS, result)
    ensures result.Keys == FunnelReport(st, names).Keys
    ensures forall t | t in result :: result[t].funnel == FunnelOf(st, t)
    ensures forall t, c: Catalog | t in result :: result[t].catalogs.Get(c) == ProgressOf(st, c, t)
  {
    hide FunnelOf, ProgressOf, FunnelReport;
    forall t, c: Catalog | t in result ensures result[t].catalogs.Get(c) == ProgressOf(st, c, t) {
      EveryCatalog(c);
    }
  }

  // ---- Catalogs without a layer-2 table ----

  /** For each such catalog the records that have a row in its layer-1 table. */
  type OtherCatalogs = map<string, set<RecordId>>

  const ZERO: CatalogProgress := CatalogProgress(0, 0, 0)

  /** What such a catalog reports of a table: how many of its records are structured, and nothing of layer 2. */
  function OtherProgress(st: State, structured: set<RecordId>, table: TableName): CatalogProgress {
    CatalogProgress(|structured * RecordsIn(st, table)|, 0, 0)
  }

  ghost predicate IsOtherProgress(st: State, structured: set<RecordId>, table: TableName, p: CatalogProgress) {
    && p.structured == |set r | r in structured && r in st.content.records && st.content.records[r].table == table|
    && p.inLayer2 == 0 && p.pending == 0
  }

  lemma OtherCounts(st: State, structured: set<RecordId>, table: TableName)
    ensures IsOtherProgress(st, structured, table, OtherProgress(st, structured, table))
  {
    assert structured * RecordsIn(st, table) ==
      set r | r in structured && r in st.content.records && st.content.records[r].table == table;
  }

  function OtherReport(st: State, structured: set<RecordId>, names: Option<seq<TableName>>)
    : map<TableName, CatalogProgress>
  {
    map t | t in st.content.tables && (names.Some? ==> t in names.value) && structured * RecordsIn(st, t) != {} ::
      OtherProgress(st, structured, t)
  }

  lemma OtherListedHasFunnel(st: State, structured: set<RecordId>, names: Option<seq<TableName>>)
    ensures OtherReport(st, structured, names).Keys <= FunnelReport(st, names).Keys
  {
    forall t | t in OtherReport(st, structured, names) ensures t in FunnelReport(st, names) {
      var r := Member(structured * RecordsIn(st, t));
    }
  }

  /** The counters of `name` written into a result; nothing else of it changes. */
  ghost predicate OtherAdded(st: State, structured: set<RecordId>, name: string, before: map<TableName, TableProgress>,
                             result: map<TableName, TableProgress>) {
    && result.Keys == before.Keys
    && forall t | t in result ::
         result[t] == before[t].(others := before[t].others[name := OtherProgress(st, structured, t)])
  }

  lemma WrittenIsAdded(st: State, structured: set<RecordId>, names: Option<seq<TableName>>, name: string,
                       before: map<TableName, TableProgress>, t: TableName)
    requires t in FunnelReport(st, names) && t in before && name in before[t].others && before[t].others[name] == ZERO
    ensures var counters := OtherReport(st, structured, names);
      before[t].(others := before[t].others[name := OtherProgress(st, structured, t)]) ==
        if t in counters then before[t].(others := before[t].others[name := counters[t]]) else before[t]
  {
    if t !in OtherReport(st, structured, names) {
      assert structured * RecordsIn(st, t) == {};
      assert before[t].others[name := ZERO] == before[t].others;
    }
  }

  method AddOther(st: State, structured: set<RecordId>, names: Option<seq<TableName>>, name: string,
                  before: map<TableName, TableProgress>) returns (result: map<TableName, TableProgress>)
    requires before.Keys == FunnelReport(st, names).Keys
    requires forall t | t in before :: name in before[t].others && before[t].others[name] == ZERO
    ensures OtherAdded(st, structured, name, before, result)
  {
    hide RecordsIn, OtherProgress, OtherReport, FunnelReport;
    var counters := OtherReport(st, structured, names);
    OtherListedHasFunnel(st, structured, names);
    result := before;
    var todo := counters.Keys;
    while todo != {}
      invariant todo <= counters.Keys && result.Keys == before.Keys
      invariant forall t | t in result :: result[t] ==
                  if t in counters && t !in todo then before[t].(others := before[t].others[name := counters[t]])
                  else before[t]
      decreases todo
    {
      var t :| t in todo;
      result := result[t := result[t].(others := result[t].others[name := counters[t]])];
      todo := todo - {t};
    }
    forall t | t in result
      ensures result[t] == before[t].(others := before[t].others[name := OtherProgress(st, structured, t)])
    {
      WrittenIsAdded(st, structured, names, name, before, t);
    }
  }

  /** The catalogs of `done` are filled in, the other ones are still zero. */
  ghost predicate OthersFilled(st: State, others: OtherCatalogs, done: set<string>, result: map<TableName, TableProgress>) {
    forall t | t in result ::
      && result[t].others.Keys == others.Keys
      && forall n | n in others ::
           result[t].others[n] == if n in done then OtherProgress(st, others[n], t) else ZERO
  }

  lemma OneMoreOther(st: State, others: OtherCatalogs, done: set<string>, name: string,
                     before: map<TableName, TableProgress>, result: map<TableName, TableProgress>)
    requires name in others && OthersFilled(st, others, done, before)
    requires OtherAdded(st, others[name], name, before, result)
    ensures OthersFilled(st, others, done + {name}, result)
  {
    hide OtherProgress;
    forall t | t in result
      ensures result[t].others.Keys == others.Keys
      ensures forall n | n in others ::
                result[t].others[n] == if n in done + {name} then OtherProgress(st, others[n], t) else ZERO
    {
      assert result[t].others == before[t].others[name := OtherProgress(st, others[name], t)];
    }
  }

  lemma OtherAddedKeeps(st: State, structured: set<RecordId>, name: string, before: map<TableName, TableProgress>,
                        result: map<TableName, TableProgress>, names: Option<seq<TableName>>)
    requires OtherAdded(st, structured, name, before, result) && FilledIn(st, names, CATALOGS, before)
    ensures FilledIn(st, names, CATALOGS, result)
  {
    hide FunnelOf, ProgressOf, FunnelReport, OtherProgress;
  }

  /** The second half of the merge: the catalogs that report no layer 2. */
  method AddOthers(st: State, names: Option<seq<TableName>>, others: OtherCatalogs, before: map<TableName, TableProgress>)
    returns (result: map<TableName, TableProgress>)
    requires FilledIn(st, names, CATALOGS, before) && OthersFilled(st, others, {}, before)
    ensures FilledIn(st, names, CATALOGS, result) && OthersFilled(st, others, others.Keys, result)
  {
    hide FilledIn, OtherProgress, OtherAdded, FunnelReport;
    result := before;
    var todo := others.Keys;
    assert others.Keys - todo == {};
    while todo != {}
      invariant todo <= others.Keys
      invariant FilledIn(st, names, CATALOGS, result) && OthersFilled(st, others, others.Keys - todo, result)
      decreases todo
    {
      var name :| name in todo;
      FilledKeys(st, names, CATALOGS, result);
      ghost var was := result;
      result := AddOther(st, others[name], names, name, result);
      OneMoreOther(st, others, others.Keys - todo, name, was, result);
      OtherAddedKeeps(st, others[name], name, was, result, names);
      assert (others.Keys - todo) + {name} == others.Keys - (todo - {name});
      todo := todo - {name};
    }
    assert others.Keys - {} == others.Keys;
  }

  // ---- The merge ----

  lemma ZerosAreOthers(st: State, others: OtherCatalogs, result: map<TableName, TableProgress>)
    requires forall t | t in result :: result[t].others == map n | n in others :: ZERO
    ensures OthersFilled(st, others, {}, result)
  {}

  lemma AddedKeepsOthers(c: Catalog, counters: map<TableName, CatalogProgress>, before: map<TableName, TableProgress>,
                         result: map<TableName, TableProgress>, zeros: map<string, CatalogProgress>)
    requires Added(c, counters, before, result) && forall t | t in before :: before[t].others == zeros
    ensures forall t | t in result :: result[t].others == zeros
  {}

  /** The first half of the merge: the catalogs that are aggregated. */
  method AddCatalogs(st: State, names: Option<seq<TableName>>, zeros: map<string, CatalogProgress>,
                     before: map<TableName, TableProgress>) returns (result: map<TableName, TableProgress>)
    requires ValidContent(st.content) && FilledIn(st, names, [], before)
    requires forall t | t in before :: before[t].others == zeros
    ensures FilledIn(st, names, CATALOGS, result) && forall t | t in result :: result[t].others == zeros
  {
    hide FunnelOf, ProgressOf, ValidContent, CatalogReport, FilledIn, Added, FunnelReport;
    result := before;
    for i := 0 to |CATALOGS|
      invariant FilledIn(st, names, CATALOGS[..i], result)
      invariant forall t | t in result :: result[t].others == zeros
    {
      ListedHasFunnel(st, CATALOGS[i], names);
      FilledKeys(st, names, CATALOGS[..i], result);
      ghost var was := result;
      result := AddCatalog(CATALOGS[i], CatalogReport(st, CATALOGS[i], names), result);
      FillOne(st, names, CATALOGS[..i], CATALOGS[i], was, result);
      AddedKeepsOthers(CATALOGS[i], CatalogReport(st, CATALOGS[i], names), was, result, zeros);
      assert CATALOGS[..i + 1] == CATALOGS[..i] + [CATALOGS[i]];
    }
    assert CATALOGS[..|CATALOGS|] == CATALOGS;
  }

  /** `get_table_progress`: its case of a table without a funnel row never arises. */
  method GetTableProgress(db: Database, names: Option<seq<TableName>>, others: OtherCatalogs)
    returns (result: map<TableName, TableProgress>)
    requires ValidContent(db.Snapshot().content)
    ensures result.Keys == FunnelReport(db.Snapshot(), names).Keys
    ensures forall t | t in result :: IsFunnel(db.Snapshot(), t, result[t].funnel)
    ensures forall t, c: Catalog | t in result :: IsProgress(db.Snapshot(), c, t, result[t].catalogs.Get(c))
    ensures forall t, n | t in result && n in others ::
              n in result[t].others && IsOtherProgress(db.Snapshot(), others[n], t, result[t].others[n])
  {
    hide FunnelOf, ProgressOf, OtherProgress, ValidContent, FilledIn;
    var st := db.Snapshot();
    var funnel := FunnelReport(st, names);
    var zeros := map n | n in others :: ZERO;
    result := map t | t in funnel :: TableProgress(funnel[t], NO_PROGRESS, zeros);
    FilledNone(st, names, zeros, result);
    hide FunnelReport;
    result := AddCatalogs(st, names, zeros, result);
    ZerosAreOthers(st, others, result);
    result := AddOthers(st, names, others, result);
    FilledAll(st, names, result);
    EachIsCounted(st, others, result);
  }

  lemma EachIsCounted(st: State, others: OtherCatalogs, result: map<TableName, TableProgress>)
    requires forall t | t in result :: result[t].funnel == FunnelOf(st, t)
    requires forall t, c: Catalog | t in result :: result[t].catalogs.Get(c) == ProgressOf(st, c, t)
    requires OthersFilled(st, others, others.Keys, result)
    ensures forall t | t in result :: IsFunnel(st, t, result[t].funnel)
    ensures forall t, c: Catalog | t in result :: IsProgress(st, c, t, result[t].catalogs.Get(c))
    ensures forall t, n | t in result && n in others ::
              n in result[t].others && IsOtherProgress(st, others[n], t, result[t].others[n])
  {
    hide FunnelOf, ProgressOf, IsFunnel, IsProgress, OtherProgress, IsOtherProgress;
    forall t | t in result ensures IsFunnel(st, t, result[t].funnel) {
      FunnelCounts(st, t);
    }
    forall t, c: Catalog | t in result ensures IsProgress(st, c, t, result[t].catalogs.Get(c)) {
      ProgressCounts(st, c, t);
    }
    forall t, n | t in result && n in others ensures IsOtherProgress(st, others[n], t, result[t].others[n]) {
      OtherCounts(st, others[n], t);
    }
  }

  /** Whoever carries a PGC has a resolved crossmatch. */
  ghost predicate SubmittedResolved(st: State) {
    forall r | Carries(st, r) :: r in st.crossmatch && st.crossmatch[r].triage == Resolved
  }

  lemma StagesPartition(st: State, table: TableName)
    requires SubmittedResolved(st)
    ensures var f := FunnelOf(st, table);
            f.unprocessed + f.pendingTriage + f.resolvedUnsubmitted + f.submitted == f.total
  {
    FunnelAccounting(st, table);
    assert Irregular(st, table) == {};
  }

  /** Only assignment hands out PGCs, and submitted records are not set back to pending. */
  ghost predicate Regular(s: State, op: Op) {
    match op
    case OpUpsert(_) => false
    case OpCrossmatch(rows) => forall row | row in rows :: Carries(s, row.record) ==> row.triage == Resolved
    case _ => true
  }

  lemma {:induction false} StoreRowsResolved(s: State, rows: seq<CrossmatchRow>)
    requires SubmittedResolved(s)
    requires forall row | row in rows :: Carries(s, row.record) ==> row.triage == Resolved
    ensures forall r | Carries(s, r) ::
              r in StoreRows(s.crossmatch, rows) && StoreRows(s.crossmatch, rows)[r].triage == Resolved
  {
    if rows != [] {
      StoreRowsResolved(s, rows[..|rows| - 1]);
      assert rows[|rows| - 1] in rows;
    }
  }

  lemma CommitResolved(s: State, existing: map<RecordId, Pgc>, order: seq<RecordId>)
    requires SubmittedResolved(s)
    requires forall r | r in existing || r in order :: r in s.crossmatch && s.crossmatch[r].triage == Resolved
    ensures SubmittedResolved(CommitAssignment(s, existing, order).0)
  {
    var t := CommitAssignment(s, existing, order).0;
    forall r | Carries(t, r) ensures r in t.crossmatch && t.crossmatch[r].triage == Resolved {
      assert Carries(s, r) || r in existing || r in order;
    }
  }

  lemma AssignResolved(s: State, ids: seq<RecordId>, order: seq<RecordId>)
    requires SubmittedResolved(s) && Lists(order, NewRows(s, Elements(ids)))
    ensures SubmittedResolved(Assign(s, ids, order).0)
  {
    var staged := Elements(ids);
    if ids != [] && NoDuplicates(ids) && InvalidRows(s, staged) == {} {
      forall r | r in ExistingRows(s, staged) || r in order ensures r in s.crossmatch && s.crossmatch[r].triage == Resolved {
        assert r in order ==> r in NewRows(s, staged);
        assert r in staged && r !in InvalidRows(s, staged);
      }
      CommitResolved(s, ExistingRows(s, staged), order);
    }
  }

  lemma StepKeepsResolved(s: State, op: Op, t: State)
    requires SubmittedResolved(s) && Regular(s, op) && Next(s, op, t)
    ensures SubmittedResolved(t)
  {
    match op
    case OpCrossmatch(rows) => StoreRowsResolved(s, rows);
    case OpAssign(records) =>
      var order :| Lists(order, NewRows(s, Elements(records))) && t == Assign(s, records, order).0;
      AssignResolved(s, records, order);
    case OpRegister(table, records) => assert forall r :: Carries(t, r) ==> Carries(s, r);
    case _ =>
  }

  /** In every regular run the stages of every table add up to its records. */
  lemma {:induction false} RegularRunsPartition(states: seq<State>, ops: seq<Op>, i: nat, table: TableName)
    requires IsRun(states, ops) && i < |states|
    requires forall j | 0 <= j < |ops| :: Regular(states[j], ops[j])
    ensures SubmittedResolved(states[i])
    ensures var f := FunnelOf(states[i], table);
            f.unprocessed + f.pendingTriage + f.resolvedUnsubmitted + f.submitted == f.total
  {
    hide FunnelOf, Next, Legal, Regular, SubmittedResolved;
    if i == 0 {
      EmptyIsResolved();
    } else {
      RegularRunsPartition(states, ops, i - 1, table);
      assert Next(states[i - 1], ops[i - 1], states[i]);
      StepKeepsResolved(states[i - 1], ops[i - 1], states[i]);
    }
    StagesPartition(states[i], table);
  }

  lemma EmptyIsResolved()
    ensures SubmittedResolved(Empty())
  {
  }
}

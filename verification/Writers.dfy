/** Every writer marks what it changes: the frame condition behind the freshness of layer 2. */
module Writers {
  import opened Collections
  import opened Schema
  import opened Aggregation
  import opened Layers
  import opened Storage
  import opened Records
  import opened Layer1

  /** PGC numbers are positive, as the import's cursor assumes. */
  ghost predicate Positive(st: State) {
    st.nextPgc > 0 && forall p | p in st.pgcs :: p.number > 0
  }

  /** What every write keeps, whatever it touches. */
  ghost predicate Keeps(s: State, t: State, touched: set<Pgc>) {
    Valid(t) && (Positive(s) ==> Positive(t)) && Writes(s, t, touched)
  }

  // ---- Transactions during which others commit ----

  ghost predicate KeepsFrom(s: State, t: State, touched: set<Pgc>, begin: Time) {
    Valid(t) && (Positive(s) ==> Positive(t)) && WritesFrom(s, t, touched, begin)
  }

  lemma KeepsAtOnce(s: State, t: State, touched: set<Pgc>)
    ensures Keeps(s, t, touched) <==> KeepsFrom(s, t, touched, s.clock)
  {}

  /** The commit that leads from `s` to `t`, of a transaction that began at `begin`: its stamps are that old. */
  function Backdated(s: State, t: State, begin: Time): State {
    t.(pgcs := map p | p in t.pgcs :: if t.pgcs[p] == s.clock then begin else t.pgcs[p])
  }

  lemma BackdatedKeeps(s: State, t: State, touched: set<Pgc>, begin: Time)
    requires Valid(s) && Keeps(s, t, touched) && begin <= s.clock
    ensures KeepsFrom(s, Backdated(s, t, begin), touched, begin)
  {
    var u := Backdated(s, t, begin);
    assert u.pgcs.Keys == t.pgcs.Keys;
    forall p | p in u.pgcs ensures u.pgcs[p] == (if p in s.pgcs && p !in touched then s.pgcs[p] else begin) {
      assert p in s.pgcs ==> s.pgcs[p] < s.clock;
    }
  }

  /** Every touched PGC whose mark came too late for the catalog, and that has rows there, is up to date all the same. */
  ghost predicate MarkedInTime(t: State, touched: set<Pgc>, begin: Time, c: Catalog) {
    begin <= t.lastUpdate.Get(c) ==>
      forall p | p in touched && p in Populated(t.content, c) :: UpToDate(t.content, t.layer2.Get(c), c, p)
  }

  /** A write keeps a catalog fresh iff its mark comes in time wherever it changes what layer 2 should hold. */
  lemma LateWriteFreshIff(s: State, t: State, touched: set<Pgc>, begin: Time, c: Catalog)
    requires Valid(s) && FreshCatalog(s, c) && KeepsFrom(s, t, touched, begin)
    ensures FreshCatalog(t, c) <==> MarkedInTime(t, touched, begin, c)
  {
    hide Valid, UpToDate, Populated, Marked, KeepsFrom, WritesFrom;
    KeepsFromParts(s, t, touched, begin);
    forall p
      ensures p !in touched ==> Fresh(t, c, p)
      ensures p in touched && p in Populated(t.content, c) ==> (Marked(t, c, p) <==> begin > t.lastUpdate.Get(c))
    {
      assert Fresh(s, c, p);
      LateMarkIff(s, t, touched, begin, c, p);
    }
    if FreshCatalog(t, c) && begin <= t.lastUpdate.Get(c) {
      forall p | p in touched && p in Populated(t.content, c) ensures UpToDate(t.content, t.layer2.Get(c), c, p) {
        assert Fresh(t, c, p);
      }
    }
  }

  lemma KeepsFromParts(s: State, t: State, touched: set<Pgc>, begin: Time)
    requires KeepsFrom(s, t, touched, begin)
    ensures Valid(t) && WritesFrom(s, t, touched, begin) && t.lastUpdate == s.lastUpdate
  {}

  lemma SameContent(a: Content, b: Content, c: Catalog, p: Pgc)
    requires a == b
    ensures SameGroup(a, b, c, p)
  {}

  lemma RecordsValid(db: Content, records: map<RecordId, Record>)
    requires ValidContent(db) && db.records.Keys <= records.Keys
    requires forall r | r in records :: records[r].table in db.tables
    ensures ValidContent(db.(records := records))
  {
    forall c: Catalog ensures ValidTable(c, db.layer1.Get(c), records) {
      assert ValidTable(c, db.layer1.Get(c), db.records);
    }
  }

  // ---- Records that change PGC ----

  /** Both the PGC a record leaves and the one it gets are touched. */
  ghost predicate Covers(db: Content, inserts: map<RecordId, Pgc>, touched: set<Pgc>) {
    forall r | r in inserts && r in db.records ::
      inserts[r] in touched && (db.records[r].pgc.Some? ==> db.records[r].pgc.value in touched)
  }

  lemma WithPgcsGroup(db: Content, inserts: map<RecordId, Pgc>, touched: set<Pgc>, c: Catalog, p: Pgc)
    requires Covers(db, inserts, touched) && p !in touched
    ensures SameGroup(db, db.(records := WithPgcs(db.records, inserts)), c, p)
  {
    var t := db.(records := WithPgcs(db.records, inserts));
    assert forall r :: IsAssigned(db, r, p) <==> IsAssigned(t, r, p);
    assert forall r :: IsCompilation(db, r) == IsCompilation(t, r);
    assert GroupKeys(db, c, p) == GroupKeys(t, c, p);
  }

  lemma MintKeeps(s: State, n: nat)
    requires Valid(s) && FreeRun(s.pgcs, s.nextPgc, n) == n
    ensures Keeps(s, Mint(s, n).(clock := s.clock + 1), {})
    ensures forall p | p in s.pgcs :: p in Mint(s, n).pgcs && Mint(s, n).pgcs[p] == s.pgcs[p]
  {
    var t := Mint(s, n).(clock := s.clock + 1);
    forall c: Catalog, p ensures SameGroup(s.content, t.content, c, p) {
      SameContent(s.content, t.content, c, p);
    }
  }

  lemma SkipClashKeeps(s: State, next: int)
    requires Valid(s) && next >= s.nextPgc
    ensures Keeps(s, s.(nextPgc := next), {})
  {
    forall c: Catalog, p ensures SameGroup(s.content, s.content, c, p) {
      SameContent(s.content, s.content, c, p);
    }
  }

  lemma WrittenValid(s: State, n: nat, inserts: map<RecordId, Pgc>, touched: set<Pgc>)
    requires Valid(s) && ForeignKeysHold(Mint(s, n), inserts)
    ensures Valid(Touch(SetPgcs(Mint(s, n), inserts), touched))
  {
    hide MintedIds, ValidContent, WithPgcs, ForeignKeysHold, Touched;
    var t := Touch(SetPgcs(Mint(s, n), inserts), touched);
    WrittenContent(s, inserts);
    WrittenReferences(s, n, inserts);
    TouchedTimes(Mint(s, n).pgcs, touched, s.clock);
  }

  lemma TouchedTimes(pgcs: map<Pgc, Time>, touched: set<Pgc>, now: Time)
    ensures Touched(pgcs, touched, now).Keys == pgcs.Keys
    ensures forall p | p in pgcs :: Touched(pgcs, touched, now)[p] == if p in touched then now else pgcs[p]
  {}

  lemma WrittenContent(s: State, inserts: map<RecordId, Pgc>)
    requires ValidContent(s.content)
    ensures ValidContent(s.content.(records := WithPgcs(s.content.records, inserts)))
    ensures WithPgcs(s.content.records, inserts).Keys == s.content.records.Keys
  {
    RecordsValid(s.content, WithPgcs(s.content.records, inserts));
  }

  lemma WrittenReferences(s: State, n: nat, inserts: map<RecordId, Pgc>)
    requires Valid(s) && ForeignKeysHold(Mint(s, n), inserts)
    ensures var records := WithPgcs(s.content.records, inserts);
      forall r | r in records && records[r].pgc.Some? :: records[r].pgc.value in Mint(s, n).pgcs
  {}

  lemma WrittenTimes(s: State, n: nat, touched: set<Pgc>)
    requires FreeRun(s.pgcs, s.nextPgc, n) == n
    ensures var pgcs := Touched(Mint(s, n).pgcs, touched, s.clock);
            && (forall p | p in s.pgcs :: p in pgcs)
            && (forall p | p in pgcs :: pgcs[p] == (if p in s.pgcs && p !in touched then s.pgcs[p] else s.clock))
            && (Positive(s) ==> forall p | p in pgcs :: p.number > 0)
  {
  }

  /** Minting, writing the PGCs and touching, in one. */
  lemma WriteKeeps(s: State, n: nat, inserts: map<RecordId, Pgc>, touched: set<Pgc>)
    requires Valid(s) && FreeRun(s.pgcs, s.nextPgc, n) == n
    requires ForeignKeysHold(Mint(s, n), inserts) && Covers(s.content, inserts, touched)
    ensures Keeps(s, Touch(SetPgcs(Mint(s, n), inserts), touched), touched)
  {
    hide Valid, SameGroup, Touched, WithPgcs, Covers;
    WrittenValid(s, n, inserts, touched);
    WrittenTimes(s, n, touched);
    var t := Touch(SetPgcs(Mint(s, n), inserts), touched);
    forall c: Catalog, p | p !in touched ensures SameGroup(s.content, t.content, c, p) {
      WithPgcsGroup(s.content, inserts, touched, c, p);
    }
  }

  ghost function AssignTouches(s: State, ids: seq<RecordId>, order: seq<RecordId>): set<Pgc> {
    if Assign(s, ids, order).1 == Assigned && ids != [] then
      (ExistingRows(s, Elements(ids)) + MintedFor(order, s.nextPgc)).Values
    else {}
  }

  lemma CommitKeeps(s: State, existing: map<RecordId, Pgc>, order: seq<RecordId>)
    requires Valid(s)
    requires forall r | r in existing || r in order :: r in s.content.records && s.content.records[r].pgc.None?
    ensures var (t, outcome) := CommitAssignment(s, existing, order);
            Keeps(s, t, if outcome == Assigned then (existing + MintedFor(order, s.nextPgc)).Values else {})
  {
    var (t, outcome) := CommitAssignment(s, existing, order);
    var inserts := existing + MintedFor(order, s.nextPgc);
    if outcome == Assigned && inserts != map[] {
      assert forall r | r in inserts :: inserts[r] in inserts.Values;
      WriteKeeps(s, |order|, inserts, inserts.Values);
    } else {
      assert inserts == map[] ==> inserts.Values == {};
      assert t == s.(nextPgc := t.nextPgc);
      SkipClashKeeps(s, t.nextPgc);
    }
  }

  lemma AssignKeeps(s: State, ids: seq<RecordId>, order: seq<RecordId>)
    requires Valid(s) && Lists(order, NewRows(s, Elements(ids)))
    ensures Keeps(s, Assign(s, ids, order).0, AssignTouches(s, ids, order))
  {
    hide Keeps, CommitAssignment, Valid;
    var staged := Elements(ids);
    forall r | r in ExistingRows(s, staged) || r in order ensures r in s.content.records && s.content.records[r].pgc.None? {
      assert r in order ==> r in NewRows(s, staged);
    }
    CommitKeeps(s, ExistingRows(s, staged), order);
    SkipClashKeeps(s, s.nextPgc);
    assert s.(nextPgc := s.nextPgc) == s;
  }

  ghost function UpsertTouches(s: State, pgcs: seq<Entry>): set<Pgc> {
    var order := NewRecords(pgcs);
    var inserts := MintedFor(order, s.nextPgc) + Explicit(pgcs);
    if Upsert(s, pgcs).1 == Assigned then PreviousPgcs(s, inserts) + inserts.Values else {}
  }

  lemma WriteEntriesKeeps(s: State, n: nat, inserts: map<RecordId, Pgc>)
    requires Valid(s) && FreeRun(s.pgcs, s.nextPgc, n) == n
    requires inserts != map[]
    ensures var (t, outcome) := WriteEntries(Mint(s, n), inserts);
            Keeps(s, t, if outcome == Assigned then PreviousPgcs(s, inserts) + inserts.Values else {})
  {
    var touched := PreviousPgcs(s, inserts) + inserts.Values;
    MintKeeps(s, n);
    assert PreviousPgcs(Mint(s, n), inserts) == PreviousPgcs(s, inserts);
    if ForeignKeysHold(Mint(s, n), inserts) {
      assert forall r | r in inserts :: inserts[r] in inserts.Values;
      WriteKeeps(s, n, inserts, touched);
    }
  }

  lemma NoPrevious(s: State)
    ensures PreviousPgcs(s, map[]) == {} && WriteEntries(s, map[]) == (s, Assigned)
  {}

  lemma UpsertKeeps(s: State, pgcs: seq<Entry>)
    requires Valid(s)
    ensures Keeps(s, Upsert(s, pgcs).0, UpsertTouches(s, pgcs))
  {
    hide Keeps, Valid, FreeRun, WriteEntries, PreviousPgcs, NewRecords, Explicit;
    var order := NewRecords(pgcs);
    var inserts := MintedFor(order, s.nextPgc) + Explicit(pgcs);
    var run := FreeRun(s.pgcs, s.nextPgc, |order|);
    if run < |order| {
      SkipClashKeeps(s, s.nextPgc + run + 1);
    } else if inserts == map[] {
      MintingInserts(order, s.nextPgc, Explicit(pgcs));
      MintNone(s);
      SkipClashKeeps(s, s.nextPgc);
      assert s.(nextPgc := s.nextPgc) == s;
      assert inserts.Values == {};
      NoPrevious(s);
      assert UpsertTouches(s, pgcs) == {};
    } else {
      WriteEntriesKeeps(s, |order|, inserts);
    }
  }

  lemma MergeKeeps(s: State, target: Pgc, sources: set<Pgc>)
    requires Valid(s) && target in s.pgcs
    ensures Keeps(s, MergeInto(s, target, sources), {target} + sources)
  {
    var t := MergeInto(s, target, sources);
    RecordsValid(s.content, t.content.records);
    forall c: Catalog, p | p !in {target} + sources ensures SameGroup(s.content, t.content, c, p) {
      assert forall r :: IsAssigned(s.content, r, p) <==> IsAssigned(t.content, r, p);
      assert forall r :: IsCompilation(s.content, r) == IsCompilation(t.content, r);
      assert GroupKeys(s.content, c, p) == GroupKeys(t.content, c, p);
    }
  }

  // ---- The other writers ----

  lemma StoreValid(s: State, c: Catalog, data: seq<Input>, namesECz: bool)
    requires Valid(s) && Storable(s.content, data) && forall x | x in data :: RowFits(c, x.row)
    ensures Valid(StoreLayer1(s, c, data, namesECz))
  {
    var t := StoreLayer1(s, c, data, namesECz);
    UpsertRowsValid(c, s.content.layer1.Get(c), data, namesECz, s.content.records);
    forall d: Catalog ensures ValidTable(d, t.content.layer1.Get(d), t.content.records) {
      assert ValidTable(d, s.content.layer1.Get(d), s.content.records);
    }
  }

  lemma StoreFrame(s: State, c: Catalog, data: seq<Input>, namesECz: bool, d: Catalog)
    ensures var old_, new_ := s.content.layer1.Get(d), StoreLayer1(s, c, data, namesECz).content.layer1.Get(d);
            && (forall k | k in old_ :: k in new_)
            && (forall k | k in new_ && k.record !in RecordIds(data) :: k in old_ && new_[k] == old_[k])
  {
    UpsertRowsFrame(c, s.content.layer1.Get(c), data, namesECz);
  }

  lemma StoreGroup(s: State, c: Catalog, data: seq<Input>, namesECz: bool, d: Catalog, p: Pgc)
    requires p !in PgcsOfRecords(s.content, RecordIds(data))
    ensures SameGroup(s.content, StoreLayer1(s, c, data, namesECz).content, d, p)
  {
    hide UpsertRows, RecordIds;
    var t := StoreLayer1(s, c, data, namesECz);
    StoreFrame(s, c, data, namesECz, d);
    assert t.content.records == s.content.records && t.content.tables == s.content.tables;
    OtherRowsSame(s.content, t.content, RecordIds(data), d, p);
  }

  /** Rows of the given records only have changed, and none of them is in the group. */
  lemma OtherRowsSame(a: Content, b: Content, ids: set<RecordId>, d: Catalog, p: Pgc)
    requires b.records == a.records && b.tables == a.tables && p !in PgcsOfRecords(a, ids)
    requires forall k | k in a.layer1.Get(d) :: k in b.layer1.Get(d)
    requires forall k | k in b.layer1.Get(d) && k.record !in ids ::
               k in a.layer1.Get(d) && b.layer1.Get(d)[k] == a.layer1.Get(d)[k]
    ensures SameGroup(a, b, d, p)
  {
    assert forall r | IsAssigned(a, r, p) :: r !in ids;
    assert GroupKeys(a, d, p) == GroupKeys(b, d, p);
  }

  lemma SaveKeeps(s: State, c: Catalog, data: seq<Input>, namesECz: bool)
    requires Valid(s) && Storable(s.content, data) && forall x | x in data :: RowFits(c, x.row)
    ensures Keeps(s, SaveStructured(s, c, data, namesECz).0, PgcsOfRecords(s.content, RecordIds(data)))
  {
    var touched := PgcsOfRecords(s.content, RecordIds(data));
    StoreValid(s, c, data, namesECz);
    forall d: Catalog, p | p !in touched
      ensures SameGroup(s.content, StoreLayer1(s, c, data, namesECz).content, d, p)
    {
      StoreGroup(s, c, data, namesECz, d, p);
    }
    var m := StoreLayer1(s, c, data, namesECz);
    TouchKeeps(s, m, touched);
  }

  /** A change of content that leaves the untouched groups alone, then the touch. */
  lemma TouchKeeps(s: State, m: State, touched: set<Pgc>)
    requires Valid(s) && Valid(m) && m == s.(content := m.content)
    requires forall c: Catalog, p | p !in touched :: SameGroup(s.content, m.content, c, p)
    ensures Keeps(s, Touch(m, touched), touched)
  {
    assert Touch(m, touched).pgcs.Keys == s.pgcs.Keys;
  }

  lemma {:induction false} StoreRowsKnown(s: State, table: map<RecordId, Crossmatch>, rows: seq<CrossmatchRow>)
    requires forall row | row in rows :: row.record in s.content.records
    ensures forall r | r in StoreRows(table, rows) ::
              || (r in table && StoreRows(table, rows)[r] == table[r])
              || (r in s.content.records && exists row :: row in rows && StoreRows(table, rows)[r] == Stored(row))
  {
    if rows != [] {
      var front := rows[..|rows| - 1];
      StoreRowsKnown(s, table, front);
      assert rows[|rows| - 1] in rows;
      assert forall row | row in front :: row in rows;
    }
  }

  lemma CrossmatchKeeps(s: State, rows: seq<CrossmatchRow>)
    requires Valid(s)
    ensures Keeps(s, SetCrossmatch(s, rows).0, {})
  {
    var t := SetCrossmatch(s, rows).0;
    if t != s {
      StoreRowsKnown(s, s.crossmatch, rows);
      forall r | r in t.crossmatch
        ensures r in t.content.records && t.crossmatch[r].metadata.Some? &&
                WellFormedMetadata(t.crossmatch[r].metadata.value)
      {
        if !(r in s.crossmatch && t.crossmatch[r] == s.crossmatch[r]) {
          var row :| row in rows && t.crossmatch[r] == Stored(row);
          CandidatesSurvive(row.candidates);
        }
      }
    }
    forall c: Catalog, p ensures SameGroup(s.content, t.content, c, p) {
      SameContent(s.content, t.content, c, p);
    }
  }

  lemma RegisterIdsKeeps(s: State, ids: seq<Pgc>)
    requires Valid(s) && forall p | p in ids :: p.number > 0
    ensures Keeps(s, RegisterIds(s, ids).0, {})
  {
    var t := RegisterIds(s, ids).0;
    forall c: Catalog, p ensures SameGroup(s.content, t.content, c, p) {
      SameContent(s.content, t.content, c, p);
    }
  }

  // ---- Writers that may reclassify records ----

  /** Same rows and PGCs, perhaps other tables or datatypes, and new records without PGC. */
  ghost predicate SameButClasses(a: Content, b: Content) {
    && b.layer1 == a.layer1 && a.records.Keys <= b.records.Keys
    && forall r | r in b.records :: b.records[r].pgc == if r in a.records then a.records[r].pgc else None
  }

  /** A layer-1 row whose average may depend on the datatype of its record's table. */
  ghost predicate Weighed(db: Content, c: Catalog, k: Key) {
    Measured(c) && k in db.layer1.Get(c) && k.record in db.records && db.records[k.record].pgc.Some?
  }

  ghost predicate KeepsClasses(a: Content, b: Content) {
    forall c: Catalog, k | Weighed(a, c, k) :: IsCompilation(a, k.record) == IsCompilation(b, k.record)
  }

  /** Every group stays the same iff no weighed row changes between compilation and not. */
  lemma GroupsSameIff(a: Content, b: Content)
    requires SameButClasses(a, b)
    ensures (forall c: Catalog, p :: SameGroup(a, b, c, p)) <==> KeepsClasses(a, b)
  {
    assert forall r, p :: IsAssigned(a, r, p) <==> IsAssigned(b, r, p);
    if KeepsClasses(a, b) {
      forall c: Catalog, p ensures SameGroup(a, b, c, p) {
        ClassesKeepGroup(a, b, c, p);
      }
    }
    if forall c: Catalog, p :: SameGroup(a, b, c, p) {
      forall c: Catalog, k | Weighed(a, c, k) ensures IsCompilation(a, k.record) == IsCompilation(b, k.record) {
        var p := a.records[k.record].pgc.value;
        assert SameGroup(a, b, c, p) && k in GroupKeys(a, c, p);
        assert SampleOf(a, c, p, k).compilation == SampleOf(b, c, p, k).compilation;
      }
    }
  }

  lemma ClassesKeepGroup(a: Content, b: Content, c: Catalog, p: Pgc)
    requires SameButClasses(a, b) && KeepsClasses(a, b)
    ensures SameGroup(a, b, c, p)
  {
    assert forall r :: IsAssigned(a, r, p) <==> IsAssigned(b, r, p);
    assert GroupKeys(a, c, p) == GroupKeys(b, c, p);
    forall k | k in GroupKeys(a, c, p) ensures SampleOf(a, c, p, k) == SampleOf(b, c, p, k) {
      assert Measured(c) ==> Weighed(a, c, k);
    }
  }

  /** Only the content has changed, and no time: the write touches nothing. */
  lemma UnmarkedKeepsIff(s: State, t: State)
    requires Valid(s) && ValidContent(t.content) && t == s.(content := t.content) && SameButClasses(s.content, t.content)
    ensures Keeps(s, t, {}) <==> KeepsClasses(s.content, t.content)
  {
    hide SameGroup, KeepsClasses, ValidContent;
    GroupsSameIff(s.content, t.content);
  }

  // ---- Which reclassifications layer 2 survives ----

  /** The same may be stored for `p`. */
  ghost predicate SameAnswers(a: Content, b: Content, c: Catalog, p: Pgc) {
    forall y :: IsSummary(c, GroupRows(a, c, p), y) <==> IsSummary(c, GroupRows(b, c, p), y)
  }

  /** Only PGCs that are marked anyway get another answer. */
  ghost predicate UnmarkedAnswersIn(s: State, b: Content, c: Catalog) {
    forall p | p in Populated(s.content, c) && !Marked(s, c, p) :: SameAnswers(s.content, b, c, p)
  }

  ghost predicate UnmarkedAnswers(s: State, b: Content) {
    forall c: Catalog :: UnmarkedAnswersIn(s, b, c)
  }

  lemma SamePopulated(a: Content, b: Content, c: Catalog, p: Pgc)
    requires SameButClasses(a, b)
    ensures p in Populated(a, c) <==> p in Populated(b, c)
  {
    assert forall r :: IsAssigned(a, r, p) <==> IsAssigned(b, r, p);
    assert GroupKeys(a, c, p) == GroupKeys(b, c, p);
    PopulatedGroup(a, c, p);
    PopulatedGroup(b, c, p);
  }

  /** One row that is right before and after is enough: of an averaged catalog it is the only one. */
  lemma AnswersAgree(a: Content, b: Content, l2: map<Pgc, Summary>, c: Catalog, p: Pgc)
    requires SameButClasses(a, b) && UpToDate(a, l2, c, p)
    ensures UpToDate(b, l2, c, p) <==> SameAnswers(a, b, c, p)
  {
    hide IsSummary, GroupRows, SameButClasses;
    SummaryDetermined(c, GroupRows(a, c, p));
    SummaryDetermined(c, GroupRows(b, c, p));
    if !Measured(c) {
      UnmeasuredSame(a, b, c, p);
    }
  }

  lemma UnmeasuredSame(a: Content, b: Content, c: Catalog, p: Pgc)
    requires SameButClasses(a, b) && !Measured(c)
    ensures GroupRows(a, c, p) == GroupRows(b, c, p)
  {
    assert forall r :: IsAssigned(a, r, p) <==> IsAssigned(b, r, p);
    assert GroupKeys(a, c, p) == GroupKeys(b, c, p);
    SameGroupRows(a, b, c, p);
  }

  /** An unmarked change of classes keeps a catalog fresh iff only marked PGCs get another answer. */
  lemma ReclassifiedFreshIn(s: State, t: State, c: Catalog)
    requires FreshCatalog(s, c) && t == s.(content := t.content) && SameButClasses(s.content, t.content)
    ensures FreshCatalog(t, c) <==> UnmarkedAnswersIn(s, t.content, c)
  {
    hide SameButClasses, UpToDate, SameAnswers, Populated;
    forall p
      ensures p in Populated(s.content, c) <==> p in Populated(t.content, c)
      ensures p in Populated(s.content, c) && !Marked(s, c, p) ==>
                (Fresh(t, c, p) <==> SameAnswers(s.content, t.content, c, p))
    {
      assert Fresh(s, c, p);
      SamePopulated(s.content, t.content, c, p);
      if p in Populated(s.content, c) && !Marked(s, c, p) {
        AnswersAgree(s.content, t.content, s.layer2.Get(c), c, p);
      }
    }
  }

  lemma AllFreshIsEach(s: State)
    ensures AllFresh(s) <==> forall c: Catalog :: FreshCatalog(s, c)
  {
    hide Fresh;
    if forall c: Catalog :: FreshCatalog(s, c) {
      forall c: Catalog, p ensures Fresh(s, c, p) {
        assert FreshCatalog(s, c);
      }
    }
  }

  lemma ReclassifiedFreshIff(s: State, t: State)
    requires AllFresh(s) && t == s.(content := t.content) && SameButClasses(s.content, t.content)
    ensures AllFresh(t) <==> UnmarkedAnswers(s, t.content)
  {
    hide SameButClasses, AllFresh, FreshCatalog, UnmarkedAnswersIn;
    AllFreshIsEach(s);
    AllFreshIsEach(t);
    forall c: Catalog ensures FreshCatalog(t, c) <==> UnmarkedAnswersIn(s, t.content, c) {
      ReclassifiedFreshIn(s, t, c);
    }
  }

  /** It suffices that each weighed row that changes class is of a marked PGC. */
  ghost predicate ChangesMarked(s: State, b: Content) {
    forall c: Catalog, k | Weighed(s.content, c, k) && IsCompilation(s.content, k.record) != IsCompilation(b, k.record) ::
      Marked(s, c, s.content.records[k.record].pgc.value)
  }

  lemma ChangesMarkedSuffices(s: State, b: Content)
    requires SameButClasses(s.content, b) && ChangesMarked(s, b)
    ensures UnmarkedAnswers(s, b)
  {
    hide IsSummary, GroupRows, Marked;
    forall c: Catalog, p | p in Populated(s.content, c) && !Marked(s, c, p) ensures SameAnswers(s.content, b, c, p) {
      UnchangedGroup(s, b, c, p);
      SameGroupRows(s.content, b, c, p);
    }
  }

  lemma UnchangedGroup(s: State, b: Content, c: Catalog, p: Pgc)
    requires SameButClasses(s.content, b) && ChangesMarked(s, b) && !Marked(s, c, p)
    ensures SameGroup(s.content, b, c, p)
  {
    hide Marked;
    assert forall r :: IsAssigned(s.content, r, p) <==> IsAssigned(b, r, p);
    assert GroupKeys(s.content, c, p) == GroupKeys(b, c, p);
    forall k | k in GroupKeys(s.content, c, p) ensures SampleOf(s.content, c, p, k) == SampleOf(b, c, p, k) {
      assert Measured(c) ==> Weighed(s.content, c, k);
    }
  }

  // ---- The two that may ----

  /** Weighed rows of the named records are compilations just if the table is one of compilations. */
  ghost predicate RegisterGuard(s: State, table: TableName, ids: seq<RecordId>) {
    table in s.content.tables ==>
      forall c: Catalog, k | Weighed(s.content, c, k) && k.record in ids ::
        IsCompilation(s.content, k.record) == (s.content.tables[table] == Compilation)
  }

  lemma RegisterClasses(s: State, table: TableName, ids: seq<RecordId>)
    requires Valid(s)
    ensures var t := RegisterRecords(s, table, ids).0;
      && t == s.(content := t.content) && SameButClasses(s.content, t.content) && ValidContent(t.content)
      && (KeepsClasses(s.content, t.content) <==> RegisterGuard(s, table, ids))
  {
    hide ValidTable;
    var t := RegisterRecords(s, table, ids).0;
    if table in s.content.tables && ids != [] {
      RecordsValid(s.content, t.content.records);
      forall r | r in s.content.records
        ensures IsCompilation(t.content, r) ==
                  if r in ids then s.content.tables[table] == Compilation else IsCompilation(s.content, r)
      {}
    }
  }

  /** Registering records leaves every group alone iff the guard holds. */
  lemma RegisterKeepsIff(s: State, table: TableName, ids: seq<RecordId>)
    requires Valid(s)
    ensures Keeps(s, RegisterRecords(s, table, ids).0, {}) <==> RegisterGuard(s, table, ids)
  {
    hide Valid, Keeps, SameButClasses, KeepsClasses, RegisterGuard, RegisterRecords, ValidContent;
    RegisterClasses(s, table, ids);
    UnmarkedKeepsIff(s, RegisterRecords(s, table, ids).0);
  }

  /** Weighed rows of the table's records are compilations already just if they become so. */
  ghost predicate DatatypeGuard(s: State, table: TableName, kind: DataType) {
    table in s.content.tables ==>
      forall c: Catalog, k | Weighed(s.content, c, k) && s.content.records[k.record].table == table ::
        (s.content.tables[table] == Compilation) == (kind == Compilation)
  }

  lemma DatatypeClasses(s: State, table: TableName, kind: DataType)
    requires Valid(s)
    ensures var t := UpdateDatatype(s, table, kind);
      && t == s.(content := t.content) && SameButClasses(s.content, t.content) && ValidContent(t.content)
      && (KeepsClasses(s.content, t.content) <==> DatatypeGuard(s, table, kind))
  {
    hide ValidTable;
    var t := UpdateDatatype(s, table, kind);
    if table in s.content.tables {
      assert t.content.records == s.content.records;
      forall r | r in s.content.records
        ensures IsCompilation(t.content, r) ==
                  if s.content.records[r].table == table then kind == Compilation else IsCompilation(s.content, r)
        ensures s.content.records[r].table == table ==>
                  IsCompilation(s.content, r) == (s.content.tables[table] == Compilation)
      {}
    }
  }

  /** Changing the datatype of a table leaves every group alone iff the guard holds. */
  lemma DatatypeKeepsIff(s: State, table: TableName, kind: DataType)
    requires Valid(s)
    ensures Keeps(s, UpdateDatatype(s, table, kind), {}) <==> DatatypeGuard(s, table, kind)
  {
    hide Valid, Keeps, SameButClasses, KeepsClasses, DatatypeGuard, UpdateDatatype, ValidContent;
    DatatypeClasses(s, table, kind);
    UnmarkedKeepsIff(s, UpdateDatatype(s, table, kind));
  }

  /** After records are registered layer 2 is still fresh iff only marked PGCs get another answer. */
  lemma RegisterFreshIff(s: State, table: TableName, ids: seq<RecordId>)
    requires Valid(s) && AllFresh(s)
    ensures var t := RegisterRecords(s, table, ids).0; AllFresh(t) <==> UnmarkedAnswers(s, t.content)
  {
    hide Valid, AllFresh, SameButClasses, KeepsClasses, RegisterGuard, RegisterRecords, ValidContent, UnmarkedAnswers;
    RegisterClasses(s, table, ids);
    ReclassifiedFreshIff(s, RegisterRecords(s, table, ids).0);
  }

  /** After a table gets another datatype layer 2 is still fresh iff only marked PGCs get another answer. */
  lemma DatatypeFreshIff(s: State, table: TableName, kind: DataType)
    requires Valid(s) && AllFresh(s)
    ensures var t := UpdateDatatype(s, table, kind); AllFresh(t) <==> UnmarkedAnswers(s, t.content)
  {
    hide Valid, AllFresh, SameButClasses, KeepsClasses, DatatypeGuard, UpdateDatatype, ValidContent, UnmarkedAnswers;
    DatatypeClasses(s, table, kind);
    ReclassifiedFreshIff(s, UpdateDatatype(s, table, kind));
  }

  lemma CreateTableGroup(s: State, table: TableName, kind: DataType, c: Catalog, p: Pgc)
    requires Valid(s)
    ensures SameGroup(s.content, CreateTable(s, table, kind).content, c, p)
  {
    hide ValidTable;
    var t := CreateTable(s, table, kind);
    assert t.content.records == s.content.records && t.content.layer1 == s.content.layer1;
    forall r ensures IsCompilation(s.content, r) == IsCompilation(t.content, r) {
      assert r in s.content.records ==> s.content.records[r].table in s.content.tables;
    }
    assert GroupKeys(s.content, c, p) == GroupKeys(t.content, c, p);
  }

  lemma CreateTableKeeps(s: State, table: TableName, kind: DataType)
    requires Valid(s)
    ensures Keeps(s, CreateTable(s, table, kind), {})
  {
    hide SameGroup;
    var t := CreateTable(s, table, kind);
    assert forall r | r in t.content.records :: s.content.records[r].table in s.content.tables;
    forall c: Catalog, p ensures SameGroup(s.content, t.content, c, p) {
      CreateTableGroup(s, table, kind, c, p);
    }
  }
}

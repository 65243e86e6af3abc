/** The layer-0 record repository and the managers above it: crossmatch, assignment, merge. */
module Records {
  import opened Collections
  import opened Schema
  import opened Storage

  // ---- Crossmatch metadata ----

  function CandidatesToMetadata(candidates: seq<int>): JsonObject {
    if |candidates| == 0 then map[]
    else if |candidates| == 1 then map["pgc" := Number(candidates[0])]
    else map["possible_matches" := Numbers(candidates)]
  }

  function MetadataToCandidates(metadata: Option<JsonObject>): seq<int> {
    if metadata.None? then []
    else
      var m := metadata.value;
      if "pgc" in m && m["pgc"].Number? then [m["pgc"].n]
      else if "possible_matches" in m && m["possible_matches"].Numbers? then m["possible_matches"].items
      else []
  }

  datatype MatchStatus = New | Existing | Collided

  function CandidatesToStatus(candidates: seq<int>): MatchStatus {
    if |candidates| == 0 then New else if |candidates| == 1 then Existing else Collided
  }

  predicate HasKey(c: Crossmatch, key: string) {
    c.metadata.Some? && key in c.metadata.value
  }

  function NumberIn(c: Crossmatch, key: string): int {
    if HasKey(c, key) && c.metadata.value[key].Number? then c.metadata.value[key].n else 0
  }

  lemma CandidatesSurvive(candidates: seq<int>)
    ensures WellFormedMetadata(CandidatesToMetadata(candidates))
    ensures MetadataToCandidates(Some(CandidatesToMetadata(candidates))) == candidates
  {}

  /** The forms the SQL tests for are the statuses the interface reports, and every reachable row has just one. */
  lemma MetadataFormIsStatus(c: Crossmatch)
    requires c.metadata.Some? && WellFormedMetadata(c.metadata.value)
    ensures var status := CandidatesToStatus(MetadataToCandidates(c.metadata));
            && (c.metadata == Some(map[]) <==> status == New)
            && (HasKey(c, "pgc") <==> status == Existing)
            && (HasKey(c, "possible_matches") <==> status == Collided)
    ensures HasKey(c, "pgc") ==> MetadataToCandidates(c.metadata) == [NumberIn(c, "pgc")]
  {
    var m := c.metadata.value;
    assert m == map[] <==> m.Keys == {};
    assert "pgc" != "possible_matches";
  }

  /** The one form that does not read back as it was submitted: a collision with a single candidate is a match. */
  lemma CollisionReadsBackIff(candidates: seq<int>)
    requires candidates != []
    ensures var read := MetadataToCandidates(Some(CandidatesToMetadata(candidates)));
            && (CandidatesToStatus(read) == Collided <==> |candidates| >= 2)
            && (|candidates| == 1 ==> CandidatesToStatus(read) == Existing)
  {
    CandidatesSurvive(candidates);
  }

  // ---- Registering records and tables ----

  datatype Registration = Registered | NoRecords | UnknownTable

  function RegisterRecords(st: State, table: TableName, ids: seq<RecordId>): (State, Registration) {
    if ids == [] then (st, NoRecords)
    else if table !in st.content.tables then (st, UnknownTable)
    else
      var records := st.content.records + (map r | r in ids ::
        if r in st.content.records then st.content.records[r].(table := table) else Record(table, None));
      (st.(content := st.content.(records := records)), Registered)
  }

  method RegisterRecordIds(db: Database, table: TableName, ids: seq<RecordId>) returns (outcome: Registration)
    modifies db`records
    ensures (db.Snapshot(), outcome) == RegisterRecords(old(db.Snapshot()), table, ids)
  {
    if ids == [] {
      return NoRecords;
    }
    if table !in db.tables {
      return UnknownTable;
    }
    db.records := db.records + (map r | r in ids ::
      if r in db.records then db.records[r].(table := table) else Record(table, None));
    outcome := Registered;
  }

  /** Every named record ends in the table with the PGC it had; a new one has none; the others stay. */
  lemma RegisteredExactly(st: State, table: TableName, ids: seq<RecordId>, r: RecordId)
    ensures var (t, outcome) := RegisterRecords(st, table, ids);
            var before, after := st.content.records, t.content.records;
            && (outcome == Registered <==> ids != [] && table in st.content.tables)
            && (outcome != Registered ==> t == st)
            && (r in after <==> r in before || (outcome == Registered && r in ids))
            && (outcome == Registered && r in ids ==>
                  after[r].table == table && after[r].pgc == if r in before then before[r].pgc else None)
            && (r in before && r !in ids ==> after[r] == before[r])
  {
    assert ids != [] ==> ids[0] in ids;
  }

  /** A table that exists already is left as it is. */
  function CreateTable(st: State, table: TableName, kind: DataType): State {
    if table in st.content.tables then st
    else st.(content := st.content.(tables := st.content.tables[table := kind]))
  }

  /** An unknown name has no id, and the UPDATE then matches no table. */
  function UpdateDatatype(st: State, table: TableName, kind: DataType): State {
    if table !in st.content.tables then st
    else st.(content := st.content.(tables := st.content.tables[table := kind]))
  }

  /** Creating a table adds it if it is new; changing a datatype changes that of the table if there is one. */
  lemma TablesExactly(st: State, table: TableName, kind: DataType, name: TableName)
    ensures var (before, t) := (st.content.tables, CreateTable(st, table, kind));
      && t == st.(content := st.content.(tables := t.content.tables))
      && (name in t.content.tables <==> name in before || name == table)
      && (name in t.content.tables ==> t.content.tables[name] == if name in before then before[name] else kind)
    ensures var (before, t) := (st.content.tables, UpdateDatatype(st, table, kind));
      && t == st.(content := st.content.(tables := t.content.tables))
      && (name in t.content.tables <==> name in before)
      && (name in before ==> t.content.tables[name] == if name == table then kind else before[name])
  {}

  method UpdateTableDatatype(db: Database, table: TableName, kind: DataType)
    modifies db`tables
    ensures db.Snapshot() == UpdateDatatype(old(db.Snapshot()), table, kind)
  {
    if table in db.tables {
      db.tables := db.tables[table := kind];
    }
  }

  // ---- Crossmatch results ----

  datatype CrossmatchRow = CrossmatchRow(record: RecordId, triage: Triage, candidates: seq<int>)

  function Stored(row: CrossmatchRow): Crossmatch {
    Crossmatch(row.triage, Some(CandidatesToMetadata(row.candidates)))
  }

  function StoreRows(table: map<RecordId, Crossmatch>, rows: seq<CrossmatchRow>): map<RecordId, Crossmatch> {
    if rows == [] then table else
      var last := rows[|rows| - 1];
      StoreRows(table, rows[..|rows| - 1])[last.record := Stored(last)]
  }

  /** One transaction: an unknown record violates the foreign key and nothing is stored. */
  function SetCrossmatch(st: State, rows: seq<CrossmatchRow>): (State, bool) {
    if exists row | row in rows :: row.record !in st.content.records then (st, false)
    else (st.(crossmatch := StoreRows(st.crossmatch, rows)), true)
  }

  method SetCrossmatchResults(db: Database, rows: seq<CrossmatchRow>) returns (ok: bool)
    modifies db`crossmatch
    ensures (db.Snapshot(), ok) == SetCrossmatch(old(db.Snapshot()), rows)
  {
    if exists row | row in rows :: row.record !in db.records {
      return false;
    }
    var table := db.crossmatch;
    for i := 0 to |rows|
      invariant table == StoreRows(db.crossmatch, rows[..i])
    {
      assert rows[..i + 1][..i] == rows[..i];
      table := table[rows[i].record := Stored(rows[i])];
    }
    assert rows[..|rows|] == rows;
    db.crossmatch := table;
    ok := true;
  }

  lemma {:induction false} LastRowStored(table: map<RecordId, Crossmatch>, rows: seq<CrossmatchRow>, i: nat)
    requires i < |rows| && forall j | i < j < |rows| :: rows[j].record != rows[i].record
    ensures rows[i].record in StoreRows(table, rows) && StoreRows(table, rows)[rows[i].record] == Stored(rows[i])
  {
    if i < |rows| - 1 {
      LastRowStored(table, rows[..|rows| - 1], i);
    }
  }

  /** What was submitted last for a record is what is read back for it. */
  lemma CrossmatchReadsBack(st: State, rows: seq<CrossmatchRow>, i: nat)
    requires i < |rows| && forall j | i < j < |rows| :: rows[j].record != rows[i].record
    requires SetCrossmatch(st, rows).1
    ensures var after := SetCrossmatch(st, rows).0.crossmatch;
            && rows[i].record in after && after[rows[i].record].triage == rows[i].triage
            && MetadataToCandidates(after[rows[i].record].metadata) == rows[i].candidates
  {
    LastRowStored(st.crossmatch, rows, i);
    CandidatesSurvive(rows[i].candidates);
  }

  /** One of the three lists of a request; `candidates[i]` is empty, one PGC or the possible matches. */
  datatype Payload = Payload(ids: seq<RecordId>, triage: seq<Option<Triage>>, candidates: seq<seq<int>>)

  ghost predicate ValidPayload(p: Payload) {
    |p.candidates| == |p.ids| && (p.triage == [] || |p.triage| == |p.ids|)
  }

  function RowOf(p: Payload, standard: Triage, i: nat): CrossmatchRow
    requires i < |p.ids| == |p.candidates|
  {
    var given := if i < |p.triage| then p.triage[i] else None;
    CrossmatchRow(p.ids[i], if given.Some? then given.value else standard, p.candidates[i])
  }

  /** The triage status of the i-th id: the one given for it, or the standard one of its list. */
  predicate HasTriage(p: Payload, i: nat, standard: Triage, triage: Triage) {
    && (i < |p.triage| && p.triage[i].Some? ==> triage == p.triage[i].value)
    && (i >= |p.triage| || p.triage[i].None? ==> triage == standard)
  }

  method AppendCrossmatchRows(rows: seq<CrossmatchRow>, p: Payload, standard: Triage) returns (r: seq<CrossmatchRow>)
    requires ValidPayload(p)
    ensures |r| == |rows| + |p.ids| && rows <= r
    ensures forall i | 0 <= i < |p.ids| ::
              && r[|rows| + i].record == p.ids[i] && r[|rows| + i].candidates == p.candidates[i]
              && HasTriage(p, i, standard, r[|rows| + i].triage)
    ensures r[|rows|..] == RowsOf(p, standard)
  {
    r := rows;
    for i := 0 to |p.ids|
      invariant |r| == |rows| + i && rows <= r
      invariant forall k | 0 <= k < i :: r[|rows| + k] == RowOf(p, standard, k)
    {
      r := r + [RowOf(p, standard, i)];
    }
    forall i | 0 <= i < |p.ids|
      ensures r[|rows| + i].record == p.ids[i] && r[|rows| + i].candidates == p.candidates[i]
      ensures HasTriage(p, i, standard, r[|rows| + i].triage)
    {
      assert r[|rows| + i] == RowOf(p, standard, i);
    }
  }

  /** What is stored for the i-th id of the list: its status, and its candidates as they are read back. */
  ghost predicate ReadsAs(table: map<RecordId, Crossmatch>, p: Payload, i: nat, standard: Triage)
    requires i < |p.ids| == |p.candidates|
  {
    && p.ids[i] in table
    && HasTriage(p, i, standard, table[p.ids[i]].triage)
    && MetadataToCandidates(table[p.ids[i]].metadata) == p.candidates[i]
  }

  predicate LastOfItsId(p: Payload, i: nat)
    requires i < |p.ids|
  {
    forall j | i < j < |p.ids| :: p.ids[j] != p.ids[i]
  }

  method SubmitCrossmatch(db: Database, unmatched: Payload, existing: Payload, collided: Payload) returns (ok: bool)
    requires ValidPayload(unmatched) && ValidPayload(existing) && ValidPayload(collided)
    requires forall i | 0 <= i < |unmatched.ids| :: unmatched.candidates[i] == []
    requires forall i | 0 <= i < |existing.ids| :: |existing.candidates[i]| == 1
    requires forall i | 0 <= i < |collided.ids| :: collided.candidates[i] != []
    modifies db`crossmatch
    ensures (db.Snapshot(), ok) ==
      SetCrossmatch(old(db.Snapshot()), RowsOf(unmatched, Resolved) + RowsOf(existing, Resolved) + RowsOf(collided, Pending))
    ensures ok <==> forall r | r in unmatched.ids + existing.ids + collided.ids :: r in db.records
    ensures !ok ==> db.crossmatch == old(db.crossmatch)
    ensures ok ==> forall i | 0 <= i < |collided.ids| && LastOfItsId(collided, i) ::
      ReadsAs(db.crossmatch, collided, i, Pending)
    ensures ok ==> forall i | 0 <= i < |existing.ids| && LastOfItsId(existing, i) && existing.ids[i] !in collided.ids ::
      ReadsAs(db.crossmatch, existing, i, Resolved)
    ensures ok ==> forall i | 0 <= i < |unmatched.ids| && LastOfItsId(unmatched, i)
        && unmatched.ids[i] !in existing.ids && unmatched.ids[i] !in collided.ids ::
      ReadsAs(db.crossmatch, unmatched, i, Resolved)
  {
    hide SetCrossmatch, RowsOf, ReadsAs, LastOfItsId;
    ghost var was := db.Snapshot();
    var rows := AppendCrossmatchRows([], unmatched, Resolved);
    assert rows == RowsOf(unmatched, Resolved) by { assert rows[0..] == rows; }
    rows := AppendCrossmatchRows(rows, existing, Resolved);
    ghost var two := RowsOf(unmatched, Resolved) + RowsOf(existing, Resolved);
    assert rows == two;
    rows := AppendCrossmatchRows(rows, collided, Pending);
    assert rows == two + RowsOf(collided, Pending);
    ok := SetCrossmatchResults(db, rows);
    SubmittedReadBack(was, unmatched, existing, collided);
  }

  /** The last entry for an id, over the three lists in their order, is the one that is read back. */
  lemma SubmittedReadBack(st: State, unmatched: Payload, existing: Payload, collided: Payload)
    requires ValidPayload(unmatched) && ValidPayload(existing) && ValidPayload(collided)
    ensures var (t, ok) := SetCrossmatch(st,
        RowsOf(unmatched, Resolved) + RowsOf(existing, Resolved) + RowsOf(collided, Pending));
      && (ok <==> forall r | r in unmatched.ids + existing.ids + collided.ids :: r in st.content.records)
      && (!ok ==> t == st)
      && (ok ==> forall i | 0 <= i < |collided.ids| && LastOfItsId(collided, i) ::
            ReadsAs(t.crossmatch, collided, i, Pending))
      && (ok ==> forall i | 0 <= i < |existing.ids| && LastOfItsId(existing, i) && existing.ids[i] !in collided.ids ::
            ReadsAs(t.crossmatch, existing, i, Resolved))
      && (ok ==> forall i | 0 <= i < |unmatched.ids| && LastOfItsId(unmatched, i)
              && unmatched.ids[i] !in existing.ids && unmatched.ids[i] !in collided.ids ::
            ReadsAs(t.crossmatch, unmatched, i, Resolved))
  {
    hide SetCrossmatch, RowsOf, ReadsAs, LastOfItsId;
    var a, b, c := RowsOf(unmatched, Resolved), RowsOf(existing, Resolved), RowsOf(collided, Pending);
    AcceptedIffKnown(st, unmatched, existing, collided);
    forall i | 0 <= i < |collided.ids| && LastOfItsId(collided, i) && SetCrossmatch(st, a + b + c).1
      ensures ReadsAs(SetCrossmatch(st, a + b + c).0.crossmatch, collided, i, Pending)
    {
      assert a + b + c == (a + b) + c + [];
      EntryReadBack(st, a + b, collided, Pending, [], i);
    }
    forall i | 0 <= i < |existing.ids| && LastOfItsId(existing, i) && existing.ids[i] !in collided.ids
        && SetCrossmatch(st, a + b + c).1
      ensures ReadsAs(SetCrossmatch(st, a + b + c).0.crossmatch, existing, i, Resolved)
    {
      RowIds(collided, Pending);
      EntryReadBack(st, a, existing, Resolved, c, i);
    }
    forall i | 0 <= i < |unmatched.ids| && LastOfItsId(unmatched, i) && unmatched.ids[i] !in existing.ids
        && unmatched.ids[i] !in collided.ids && SetCrossmatch(st, a + b + c).1
      ensures ReadsAs(SetCrossmatch(st, a + b + c).0.crossmatch, unmatched, i, Resolved)
    {
      RowIds(existing, Resolved);
      RowIds(collided, Pending);
      assert a + b + c == [] + a + (b + c);
      EntryReadBack(st, [], unmatched, Resolved, b + c, i);
    }
  }

  lemma RowIds(p: Payload, standard: Triage)
    requires ValidPayload(p)
    ensures forall r :: r in p.ids <==> exists row :: row in RowsOf(p, standard) && row.record == r
  {
    var rows := RowsOf(p, standard);
    forall r | r in p.ids ensures exists row :: row in rows && row.record == r {
      var i :| 0 <= i < |p.ids| && p.ids[i] == r;
      assert rows[i] in rows && rows[i].record == r;
    }
  }

  lemma AcceptedIffKnown(st: State, unmatched: Payload, existing: Payload, collided: Payload)
    requires ValidPayload(unmatched) && ValidPayload(existing) && ValidPayload(collided)
    ensures var (t, ok) := SetCrossmatch(st,
        RowsOf(unmatched, Resolved) + RowsOf(existing, Resolved) + RowsOf(collided, Pending));
      && (ok <==> forall r | r in unmatched.ids + existing.ids + collided.ids :: r in st.content.records)
      && (!ok ==> t == st)
  {
    hide RowsOf, StoreRows;
    RowIds(unmatched, Resolved);
    RowIds(existing, Resolved);
    RowIds(collided, Pending);
  }

  /** An entry that no later row is for is read back as it was given. */
  lemma EntryReadBack(st: State, before: seq<CrossmatchRow>, p: Payload, standard: Triage, after: seq<CrossmatchRow>, i: nat)
    requires ValidPayload(p) && i < |p.ids| && LastOfItsId(p, i)
    requires forall row | row in after :: row.record != p.ids[i]
    requires SetCrossmatch(st, before + RowsOf(p, standard) + after).1
    ensures ReadsAs(SetCrossmatch(st, before + RowsOf(p, standard) + after).0.crossmatch, p, i, standard)
  {
    hide SetCrossmatch, MetadataToCandidates;
    var rows := before + RowsOf(p, standard) + after;
    var k := |before| + i;
    assert rows[k] == RowOf(p, standard, i);
    forall j | k < j < |rows| ensures rows[j].record != rows[k].record {
      if j < |before| + |p.ids| {
        assert rows[j] == RowOf(p, standard, j - |before|);
      } else {
        assert rows[j] == after[j - |before| - |p.ids|] && rows[j] in after;
      }
    }
    CrossmatchReadsBack(st, rows, k);
  }

  ghost function RowsOf(p: Payload, standard: Triage): seq<CrossmatchRow>
    requires ValidPayload(p)
  {
    seq(|p.ids|, i requires 0 <= i < |p.ids| => RowOf(p, standard, i))
  }

  // ---- Assigning PGCs ----

  predicate Unassignable(st: State, r: RecordId) {
    || r !in st.crossmatch
    || st.crossmatch[r].triage != Resolved
    || HasKey(st.crossmatch[r], "possible_matches")
  }

  /** In both joined tables and without a PGC. */
  predicate Awaiting(st: State, r: RecordId) {
    r in st.crossmatch && r in st.content.records && st.content.records[r].pgc.None?
  }

  function InvalidRows(st: State, staged: set<RecordId>): set<RecordId> {
    set r | r in staged && Unassignable(st, r)
  }

  function ExistingRows(st: State, staged: set<RecordId>): map<RecordId, Pgc> {
    map r | r in staged && Awaiting(st, r) && HasKey(st.crossmatch[r], "pgc") ::
      Pgc(NumberIn(st.crossmatch[r], "pgc"))
  }

  function NewRows(st: State, staged: set<RecordId>): set<RecordId> {
    set r | r in staged && Awaiting(st, r) && st.crossmatch[r].metadata == Some(map[])
  }

  function IndexOf<T(==)>(s: seq<T>, x: T): (i: nat)
    requires x in s
    ensures i < |s| && s[i] == x
  {
    if s[0] == x then 0 else 1 + IndexOf(s[1..], x)
  }

  /** Fresh ids handed out along `order`. */
  function MintedFor(order: seq<RecordId>, first: int): map<RecordId, Pgc> {
    map r | r in order :: Pgc(first + IndexOf(order, r))
  }

  function WithPgcs(records: map<RecordId, Record>, inserts: map<RecordId, Pgc>): map<RecordId, Record> {
    map r | r in records :: if r in inserts then records[r].(pgc := Some(inserts[r])) else records[r]
  }

  function SetPgcs(st: State, inserts: map<RecordId, Pgc>): State {
    st.(content := st.content.(records := WithPgcs(st.content.records, inserts)))
  }

  predicate ForeignKeysHold(st: State, inserts: map<RecordId, Pgc>) {
    forall r | r in inserts && r in st.content.records :: inserts[r] in st.pgcs
  }

  datatype Assignment =
    | Assigned
    | Unresolved(count: nat)
    | DuplicateIds
    | IdClash
    | UnknownPgc

  /** The writing half of an assignment, once the staged records are known to be assignable. */
  ghost function CommitAssignment(st: State, existing: map<RecordId, Pgc>, order: seq<RecordId>): (State, Assignment) {
    var run := FreeRun(st.pgcs, st.nextPgc, |order|);
    if run < |order| then (SkipClash(st, run), IdClash)
    else
      var minted := Mint(st, |order|);
      var inserts := existing + MintedFor(order, st.nextPgc);
      if inserts == map[] then (st, Assigned)
      else if !ForeignKeysHold(minted, inserts) then (st.(nextPgc := minted.nextPgc), UnknownPgc)
      else (Touch(SetPgcs(minted, inserts), inserts.Values), Assigned)
  }

  /** The request on `ids`; `order` is the order the database lists the new records in. */
  ghost function Assign(st: State, ids: seq<RecordId>, order: seq<RecordId>): (State, Assignment) {
    if ids == [] then (st, Assigned)
    else if !NoDuplicates(ids) then (st, DuplicateIds)
    else
      var staged := Elements(ids);
      var invalid := InvalidRows(st, staged);
      if invalid != {} then (st, Unresolved(|invalid|))
      else CommitAssignment(st, ExistingRows(st, staged), order)
  }

  lemma MintingInserts(order: seq<RecordId>, first: int, others: map<RecordId, Pgc>)
    ensures order != [] ==> others + MintedFor(order, first) != map[] && MintedFor(order, first) + others != map[]
  {
    if order != [] {
      assert order[0] in MintedFor(order, first);
      assert order[0] in others + MintedFor(order, first) && order[0] in MintedFor(order, first) + others;
    }
  }

  lemma MintNone(st: State)
    ensures Mint(st, 0) == st
  {
    assert Mint(st, 0).pgcs == st.pgcs;
  }

  method ListInOrder(s: set<RecordId>) returns (order: seq<RecordId>)
    ensures Lists(order, s)
  {
    order := [];
    var rest := s;
    while rest != {}
      invariant rest <= s
      invariant Lists(order, s - rest)
      decreases rest
    {
      var r :| r in rest;
      order, rest := order + [r], rest - {r};
    }
    assert s - rest == s;
  }

  /** COPY into a staging table whose primary key refuses a repeated id. */
  method Stage<T(==)>(ids: seq<T>) returns (ok: bool, staged: set<T>)
    ensures ok == NoDuplicates(ids)
    ensures ok ==> staged == Elements(ids)
  {
    staged := {};
    for i := 0 to |ids|
      invariant NoDuplicates(ids[..i]) && staged == Elements(ids[..i])
    {
      if ids[i] in staged {
        var k :| 0 <= k < i && ids[k] == ids[i];
        return false, staged;
      }
      assert ids[..i + 1] == ids[..i] + [ids[i]];
      staged := staged + {ids[i]};
    }
    assert ids[..|ids|] == ids;
    ok := true;
  }

  method AssignRecordPgcs(db: Database, ids: seq<RecordId>)
    returns (outcome: Assignment, sample: seq<RecordId>, ghost order: seq<RecordId>)
    modifies db
    ensures Lists(order, NewRows(old(db.Snapshot()), Elements(ids)))
    ensures (db.Snapshot(), outcome) == Assign(old(db.Snapshot()), ids, order)
    ensures outcome.Unresolved? ==>
              && NoDuplicates(sample) && |sample| == (if outcome.count < 100 then outcome.count else 100)
              && forall r | r in sample :: r in InvalidRows(old(db.Snapshot()), Elements(ids))
  {
    var st := db.Snapshot();
    sample := [];
    var listed := ListInOrder(NewRows(st, Elements(ids)));
    order := listed;
    if ids == [] {
      return Assigned, sample, order;
    }
    var ok, staged := Stage(ids);
    if !ok {
      return DuplicateIds, sample, order;
    }
    var invalid := InvalidRows(st, staged);
    if invalid != {} {
      var rows := ListInOrder(invalid);
      ListingSize(rows, invalid);
      sample := if |rows| > 100 then rows[..100] else rows;
      return Unresolved(|invalid|), sample, order;
    }
    outcome := WriteAssignment(db, ExistingRows(st, staged), listed);
  }

  method WriteAssignment(db: Database, existing: map<RecordId, Pgc>, order: seq<RecordId>) returns (outcome: Assignment)
    modifies db
    ensures (db.Snapshot(), outcome) == CommitAssignment(old(db.Snapshot()), existing, order)
  {
    var before, first := db.pgcs, db.nextPgc;
    var ok, ids := MintPgcIds(db, |order|);
    if !ok {
      return IdClash;
    }
    var inserts := existing + MintedFor(order, first);
    MintingInserts(order, first, existing);
    MintNone(old(db.Snapshot()));
    if inserts == map[] {
      return Assigned;
    }
    if !ForeignKeysHold(db.Snapshot(), inserts) {
      db.pgcs := before;
      return UnknownPgc;
    }
    db.records := WithPgcs(db.records, inserts);
    TouchPgcs(db, inserts.Values);
    outcome := Assigned;
  }

  /** The manager drops repeated ids before it asks, so the staging table never refuses one. */
  method AssignRequest(db: Database, ids: seq<RecordId>)
    returns (outcome: Assignment, sample: seq<RecordId>, ghost order: seq<RecordId>)
    modifies db
    ensures Lists(order, NewRows(old(db.Snapshot()), Elements(ids)))
    ensures (db.Snapshot(), outcome) == Assign(old(db.Snapshot()), FirstOccurrences(ids), order)
    ensures outcome != DuplicateIds
  {
    hide CommitAssignment;
    var unique := [];
    for i := 0 to |ids|
      invariant unique == FirstOccurrences(ids[..i])
      invariant db.Snapshot() == old(db.Snapshot())
    {
      assert ids[..i + 1][..i] == ids[..i];
      if ids[i] !in unique {
        unique := unique + [ids[i]];
      }
    }
    assert ids[..|ids|] == ids;
    FirstOccurrencesList(ids);
    outcome, sample, order := AssignRecordPgcs(db, unique);
    CommitOutcome(old(db.Snapshot()), ExistingRows(old(db.Snapshot()), Elements(unique)), order);
  }

  lemma CommitOutcome(st: State, existing: map<RecordId, Pgc>, order: seq<RecordId>)
    ensures CommitAssignment(st, existing, order).1 != DuplicateIds
  {
  }

  // ---- Writing PGCs directly ----

  datatype Entry = Entry(record: RecordId, pgc: Option<Pgc>)

  /** A dict: one entry per record. */
  ghost predicate IsDict(pgcs: seq<Entry>) {
    forall i, j | 0 <= i < j < |pgcs| :: pgcs[i].record != pgcs[j].record
  }

  function NewRecords(pgcs: seq<Entry>): seq<RecordId> {
    if pgcs == [] then [] else
      NewRecords(pgcs[..|pgcs| - 1]) + if pgcs[|pgcs| - 1].pgc.None? then [pgcs[|pgcs| - 1].record] else []
  }

  function Explicit(pgcs: seq<Entry>): map<RecordId, Pgc> {
    if pgcs == [] then map[] else
      var last := pgcs[|pgcs| - 1];
      if last.pgc.Some? then Explicit(pgcs[..|pgcs| - 1])[last.record := last.pgc.value]
      else Explicit(pgcs[..|pgcs| - 1])
  }

  function PreviousPgcs(st: State, inserts: map<RecordId, Pgc>): set<Pgc> {
    set r | r in inserts && r in st.content.records && st.content.records[r].pgc.Some? ::
      st.content.records[r].pgc.value
  }

  /** Each statement commits on its own, so minted ids stay even if the update then fails. */
  ghost function Upsert(st: State, pgcs: seq<Entry>): (State, Assignment) {
    var order := NewRecords(pgcs);
    var run := FreeRun(st.pgcs, st.nextPgc, |order|);
    if run < |order| then (SkipClash(st, run), IdClash)
    else WriteEntries(Mint(st, |order|), MintedFor(order, st.nextPgc) + Explicit(pgcs))
  }

  ghost function WriteEntries(st: State, inserts: map<RecordId, Pgc>): (State, Assignment) {
    if inserts == map[] then (st, Assigned)
    else if !ForeignKeysHold(st, inserts) then (st.(clock := st.clock + 1), UnknownPgc)
    else (Touch(SetPgcs(st, inserts), PreviousPgcs(st, inserts) + inserts.Values), Assigned)
  }

  method UpsertPgc(db: Database, pgcs: seq<Entry>) returns (outcome: Assignment)
    requires IsDict(pgcs)
    modifies db
    ensures (db.Snapshot(), outcome) == Upsert(old(db.Snapshot()), pgcs)
  {
    var unassigned := [];
    for i := 0 to |pgcs|
      invariant unassigned == NewRecords(pgcs[..i])
    {
      assert pgcs[..i + 1][..i] == pgcs[..i];
      if pgcs[i].pgc.None? {
        unassigned := unassigned + [pgcs[i].record];
      }
    }
    assert pgcs[..|pgcs|] == pgcs;
    var first := db.nextPgc;
    var ok, ids := MintPgcIds(db, |unassigned|);
    if !ok {
      return IdClash;
    }
    var given := ExplicitEntries(pgcs);
    outcome := UpdateRecords(db, MintedFor(unassigned, first) + given);
  }

  method ExplicitEntries(pgcs: seq<Entry>) returns (given: map<RecordId, Pgc>)
    ensures given == Explicit(pgcs)
  {
    given := map[];
    for i := 0 to |pgcs|
      invariant given == Explicit(pgcs[..i])
    {
      assert pgcs[..i + 1][..i] == pgcs[..i];
      if pgcs[i].pgc.Some? {
        given := given[pgcs[i].record := pgcs[i].pgc.value];
      }
    }
    assert pgcs[..|pgcs|] == pgcs;
  }

  method UpdateRecords(db: Database, inserts: map<RecordId, Pgc>) returns (outcome: Assignment)
    modifies db
    ensures (db.Snapshot(), outcome) == WriteEntries(old(db.Snapshot()), inserts)
  {
    if inserts == map[] {
      return Assigned;
    }
    var previous := PreviousPgcs(db.Snapshot(), inserts);
    if !ForeignKeysHold(db.Snapshot(), inserts) {
      db.clock := db.clock + 1;
      return UnknownPgc;
    }
    db.records := WithPgcs(db.records, inserts);
    TouchPgcs(db, previous + inserts.Values);
    outcome := Assigned;
  }

  // ---- Merging PGCs ----

  datatype MergeOutcome = Merged(count: nat) | NotFound(pgc: Pgc) | InvalidRequest

  function Retarget(records: map<RecordId, Record>, target: Pgc, sources: set<Pgc>): map<RecordId, Record> {
    map r | r in records ::
      if records[r].pgc.Some? && records[r].pgc.value in sources then records[r].(pgc := Some(target)) else records[r]
  }

  function RecordsOf(db: Content, sources: set<Pgc>): set<RecordId> {
    set r | r in db.records && db.records[r].pgc.Some? && db.records[r].pgc.value in sources
  }

  /** The first of `ids` that common.pgc does not have. */
  function FirstMissing(ids: seq<Pgc>, pgcs: map<Pgc, Time>): Option<Pgc> {
    if ids == [] then None else if ids[0] !in pgcs then Some(ids[0]) else FirstMissing(ids[1..], pgcs)
  }

  ghost predicate AcceptableMerge(target: Pgc, sources: seq<Pgc>) {
    sources != [] && target !in sources && NoDuplicates(sources)
  }

  function MergeInto(st: State, target: Pgc, sources: set<Pgc>): State {
    Touch(st.(content := st.content.(records := Retarget(st.content.records, target, sources))), {target} + sources)
  }

  ghost function Merge(st: State, target: Pgc, sources: seq<Pgc>): (State, MergeOutcome) {
    if !AcceptableMerge(target, sources) then (st, InvalidRequest)
    else if target !in st.pgcs then (st, NotFound(target))
    else match FirstMissing(sources, st.pgcs)
      case Some(missing) => (st, NotFound(missing))
      case None => (MergeInto(st, target, Elements(sources)), Merged(|RecordsOf(st.content, Elements(sources))|))
  }

  /** The repository's UPDATE ... RETURNING followed by the touch. */
  method MergeRecords(db: Database, target: Pgc, sources: seq<Pgc>) returns (count: nat)
    modifies db
    ensures db.Snapshot() == MergeInto(old(db.Snapshot()), target, Elements(sources))
    ensures count == |RecordsOf(old(db.Snapshot()).content, Elements(sources))|
  {
    var from := Elements(sources);
    count := |RecordsOf(db.Snapshot().content, from)|;
    db.records := Retarget(db.records, target, from);
    TouchPgcs(db, {target} + from);
  }

  method MergePgcs(db: Database, target: Pgc, sources: seq<Pgc>) returns (outcome: MergeOutcome)
    modifies db
    ensures (db.Snapshot(), outcome) == Merge(old(db.Snapshot()), target, sources)
  {
    var distinct, _ := Stage(sources);
    if sources == [] || target in sources || !distinct {
      return InvalidRequest;
    }
    var existing := GetExistingPgcs(db, [target] + sources);
    if target !in existing {
      return NotFound(target);
    }
    for i := 0 to |sources|
      invariant FirstMissing(sources, db.pgcs) == FirstMissing(sources[i..], db.pgcs)
      invariant db.Snapshot() == old(db.Snapshot())
    {
      assert sources[i..][1..] == sources[i + 1..];
      if sources[i] !in existing {
        assert sources[i] in [target] + sources;
        return NotFound(sources[i]);
      }
    }
    var count := MergeRecords(db, target, sources);
    outcome := Merged(count);
  }
}

/** The layer-1 repository: storing structured data, and reading back the rows of changed PGCs in pages. */
module Layer1 {
  import opened Collections
  import opened Schema
  import opened Aggregation
  import opened Layers
  import opened Storage

  // ---- Storing ----

  datatype Input = Input(record: RecordId, rest: string, row: Row)

  /** nature.object_type as the migrations fill it. */
  const OBJECT_TYPES: set<string> := {
    "?", "*", "SN", "kN", "cl*", "OC", "GC", "as*", "str*", "***", "HII", "HVC", "SNR", "G", "QSO", "G*",
    "M", "IG", "M2", "M3", "M+", "ClG", "SCG", "void", "R", "HI", "!", "PoG", "Neb", "PNe", "ext", "."
  }

  predicate IsObjectType(name: string) {
    name in OBJECT_TYPES
  }

  /** The range CHECK of icrs.data, and the foreign key of nature.data to the object types. */
  predicate RowChecks(row: Row) {
    && (row.IcrsRow? ==> 0.0 <= row.ra.value < 360.0 && -90.0 <= row.dec.value <= 90.0)
    && (row.NatureRow? ==> IsObjectType(row.typeName))
  }

  /** The primary key: a designation is part of its own key, a redshift's method is too. */
  function KeyOf(c: Catalog, x: Input): Key {
    match c
    case Designation => Key(x.record, Text(x.row))
    case Redshift => Key(x.record, x.rest)
    case _ => Key(x.record, "")
  }

  /** ON CONFLICT DO UPDATE sets the named columns; e_cz is the one column a request may leave out. */
  function Overwrite(stored: Row, given: Row, namesECz: bool): Row {
    if stored.RedshiftRow? && given.RedshiftRow? && !namesECz then given.(eCz := stored.eCz) else given
  }

  function UpsertRow(c: Catalog, table: map<Key, Row>, x: Input, namesECz: bool): map<Key, Row> {
    var k := KeyOf(c, x);
    table[k := if k in table then Overwrite(table[k], x.row, namesECz) else x.row]
  }

  function UpsertRows(c: Catalog, table: map<Key, Row>, data: seq<Input>, namesECz: bool): map<Key, Row> {
    if data == [] then table else
      UpsertRow(c, UpsertRows(c, table, data[..|data| - 1], namesECz), data[|data| - 1], namesECz)
  }

  function RecordIds(data: seq<Input>): set<RecordId> {
    set x | x in data :: x.record
  }

  function PgcsOfRecords(db: Content, ids: set<RecordId>): set<Pgc> {
    set r | r in ids && r in db.records && db.records[r].pgc.Some? :: db.records[r].pgc.value
  }

  /** The values of cz.method_type. */
  const METHODS: set<string> := {"unknown", "emission", "absorption", "xcorr", "fit", "photoz", "best", "average"}

  predicate IsMethod(name: string) {
    name in METHODS
  }

  predicate InputChecks(x: Input) {
    RowChecks(x.row) && (x.row.RedshiftRow? ==> IsMethod(x.rest))
  }

  /** Every inserted row satisfies the foreign keys, the CHECK and the type of the redshift's method. */
  predicate Storable(db: Content, data: seq<Input>) {
    forall x | x in data :: x.record in db.records && InputChecks(x)
  }

  function StoreLayer1(st: State, c: Catalog, data: seq<Input>, namesECz: bool): State {
    st.(content := st.content.(layer1 :=
      st.content.layer1.Set(c, UpsertRows(c, st.content.layer1.Get(c), data, namesECz))))
  }

  /** One transaction: upsert, then touch the PGCs the records already carry. */
  function SaveStructured(st: State, c: Catalog, data: seq<Input>, namesECz: bool): (State, bool) {
    if !Storable(st.content, data) then (st, false)
    else (Touch(StoreLayer1(st, c, data, namesECz), PgcsOfRecords(st.content, RecordIds(data))), true)
  }

  method SaveStructuredData(db: Database, c: Catalog, data: seq<Input>, namesECz: bool) returns (ok: bool)
    requires forall x | x in data :: RowFits(c, x.row)
    modifies db
    ensures (db.Snapshot(), ok) == SaveStructured(old(db.Snapshot()), c, data, namesECz)
  {
    if !Storable(db.Snapshot().content, data) {
      return false;
    }
    var table := db.layer1.Get(c);
    for i := 0 to |data|
      invariant table == UpsertRows(c, db.layer1.Get(c), data[..i], namesECz)
    {
      assert data[..i + 1][..i] == data[..i];
      table := UpsertRow(c, table, data[i], namesECz);
    }
    assert data[..|data|] == data;
    db.layer1 := db.layer1.Set(c, table);
    TouchPgcs(db, PgcsOfRecords(db.Snapshot().content, RecordIds(data)));
    ok := true;
  }

  lemma {:induction false} UpsertRowsValid(
    c: Catalog, table: map<Key, Row>, data: seq<Input>, namesECz: bool, records: map<RecordId, Record>)
    requires ValidTable(c, table, records)
    requires forall x | x in data :: x.record in records && RowFits(c, x.row)
    ensures ValidTable(c, UpsertRows(c, table, data, namesECz), records)
  {
    if data != [] {
      UpsertRowsValid(c, table, data[..|data| - 1], namesECz, records);
      assert data[|data| - 1] in data;
    }
  }

  /** Only keys of the given records change. */
  lemma {:induction false} UpsertRowsFrame(c: Catalog, table: map<Key, Row>, data: seq<Input>, namesECz: bool)
    ensures var r := UpsertRows(c, table, data, namesECz);
            && (forall k | k in table :: k in r)
            && (forall k | k in r && k.record !in RecordIds(data) :: k in table && r[k] == table[k])
  {
    if data != [] {
      UpsertRowsFrame(c, table, data[..|data| - 1], namesECz);
      assert data[|data| - 1] in data;
    }
  }

  /**
   * Two inputs are for the same row: of one record, and for redshifts of one method, for designations of one name. A
   * record has one position and one type.
   */
  predicate SharesRow(c: Catalog, x: Input, y: Input) {
    && x.record == y.record
    && (c.Redshift? ==> x.rest == y.rest)
    && (c.Designation? ==> x.row.DesignationRow? && y.row.DesignationRow? && x.row.design == y.row.design)
  }

  lemma SharesKeyIff(c: Catalog, x: Input, y: Input)
    requires RowFits(c, x.row) && RowFits(c, y.row)
    ensures KeyOf(c, x) == KeyOf(c, y) <==> SharesRow(c, x, y)
    ensures KeyOf(c, x).record == x.record
  {}

  /** A row of the record that reads as `row`. */
  predicate StoredAs(table: map<Key, Row>, k: Key, record: RecordId, row: Row) {
    k in table && k.record == record && table[k] == row
  }

  /** No later input is for the row of the i-th. */
  predicate IsLast(c: Catalog, data: seq<Input>, i: nat)
    requires i < |data|
  {
    forall j | i < j < |data| :: !SharesRow(c, data[i], data[j])
  }

  ghost predicate AllFit(c: Catalog, data: seq<Input>) {
    forall x | x in data :: RowFits(c, x.row)
  }

  /** After a save each row holds what the last input for it gave. */
  lemma {:induction false} LastInputWins(c: Catalog, table: map<Key, Row>, data: seq<Input>, i: nat)
    requires AllFit(c, data) && i < |data| && IsLast(c, data, i)
    ensures StoredAs(UpsertRows(c, table, data, true), KeyOf(c, data[i]), data[i].record, data[i].row)
  {
    var front, last := data[..|data| - 1], data[|data| - 1];
    assert last in data && data[i] in data;
    SharesKeyIff(c, data[i], last);
    if i < |data| - 1 {
      assert front[i] == data[i] && forall j | i < j < |front| :: front[j] == data[j];
      LastInputWins(c, table, front, i);
    }
  }

  /** `k` and `l` hold what `x` and `y` gave, and are one row just if the two are for one. */
  predicate KeptApart(c: Catalog, after: map<Key, Row>, k: Key, l: Key, x: Input, y: Input) {
    StoredAs(after, k, x.record, x.row) && StoredAs(after, l, y.record, y.row) && (k == l <==> SharesRow(c, x, y))
  }

  /** Inputs for different rows are both there after the save, in rows of their own. */
  lemma InputsKeptApart(c: Catalog, table: map<Key, Row>, data: seq<Input>, i: nat, j: nat)
    requires AllFit(c, data) && i < |data| && j < |data| && IsLast(c, data, i) && IsLast(c, data, j)
    ensures exists k, l :: KeptApart(c, UpsertRows(c, table, data, true), k, l, data[i], data[j])
  {
    LastInputWins(c, table, data, i);
    LastInputWins(c, table, data, j);
    assert data[i] in data && data[j] in data;
    SharesKeyIff(c, data[i], data[j]);
    assert KeptApart(c, UpsertRows(c, table, data, true), KeyOf(c, data[i]), KeyOf(c, data[j]), data[i], data[j]);
  }

  /** A save adds no rows but those of its inputs. */
  lemma {:induction false} SavedKeys(c: Catalog, table: map<Key, Row>, data: seq<Input>, namesECz: bool)
    ensures UpsertRows(c, table, data, namesECz).Keys == table.Keys + set x | x in data :: KeyOf(c, x)
  {
    if data != [] {
      var front, last := data[..|data| - 1], data[|data| - 1];
      SavedKeys(c, table, front, namesECz);
      assert data == front + [last];
      assert forall x :: x in data <==> x in front || x == last;
    }
  }

  /** A save of redshifts overwrites the velocity whether it names the error column or not. */
  lemma {:induction false} LastVelocityWins(table: map<Key, Row>, data: seq<Input>, namesECz: bool, i: nat)
    requires AllFit(Redshift, data) && i < |data| && IsLast(Redshift, data, i)
    requires forall k | k in table :: table[k].RedshiftRow?
    ensures var after, k := UpsertRows(Redshift, table, data, namesECz), KeyOf(Redshift, data[i]);
      k in after && after[k].RedshiftRow? && after[k].cz == data[i].row.cz
  {
    var front, last := data[..|data| - 1], data[|data| - 1];
    assert last in data && data[i] in data;
    SharesKeyIff(Redshift, data[i], last);
    AllRedshifts(table, front, namesECz);
    if i < |data| - 1 {
      assert front[i] == data[i] && forall j | i < j < |front| :: front[j] == data[j];
      LastVelocityWins(table, front, namesECz, i);
    }
  }

  lemma {:induction false} AllRedshifts(table: map<Key, Row>, data: seq<Input>, namesECz: bool)
    requires AllFit(Redshift, data) && forall k | k in table :: table[k].RedshiftRow?
    ensures forall k | k in UpsertRows(Redshift, table, data, namesECz) ::
      UpsertRows(Redshift, table, data, namesECz)[k].RedshiftRow?
  {
    if data != [] {
      AllRedshifts(table, data[..|data| - 1], namesECz);
      assert data[|data| - 1] in data;
    }
  }

  /** A save that leaves the error column out keeps the stored errors. */
  lemma {:induction false} OmittedErrorKept(table: map<Key, Row>, data: seq<Input>, k: Key)
    requires k in table && table[k].RedshiftRow? && forall x | x in data :: RowFits(Redshift, x.row)
    ensures var after := UpsertRows(Redshift, table, data, false);
            k in after && after[k].RedshiftRow? && after[k].eCz == table[k].eCz
  {
    if data != [] {
      assert data[|data| - 1] in data;
      OmittedErrorKept(table, data[..|data| - 1], k);
    }
  }

  // ---- Reading in pages ----

  /** The PGCs a read may return: changed after `since`, beyond the cursor, with a row in the catalog. */
  function Eligible(st: State, c: Catalog, since: Time, cursor: int): set<Pgc> {
    set p | p in st.pgcs && st.pgcs[p] > since && p.number > cursor && p in Populated(st.content, c)
  }

  /** SELECT DISTINCT pgc ... ORDER BY pgc LIMIT n. */
  function Page(st: State, c: Catalog, since: Time, limit: nat, cursor: int): seq<Pgc> {
    First(Ascending(Eligible(st, c, since, cursor)), limit)
  }

  ghost predicate SortedByPgc(rows: seq<Sample>) {
    forall i, j | 0 <= i < j < |rows| :: rows[i].pgc.number <= rows[j].pgc.number
  }

  /** The answer of a read: for each PGC of the page all its rows, in any order, ordered by PGC. */
  ghost predicate IsBatch(db: Content, c: Catalog, page: seq<Pgc>, rows: seq<Sample>) {
    && SortedByPgc(rows)
    && PgcsOf(rows) == Elements(page)
    && forall p | p in page :: multiset(Select(rows, p)) == multiset(GroupRows(db, c, p))
  }

  /** The rows read so far are those of the keys no longer to do. */
  ghost predicate ReadSoFar(db: Content, c: Catalog, p: Pgc, keys: seq<Key>, todo: set<Key>, rows: seq<Sample>) {
    && todo <= GroupKeys(db, c, p) && Lists(keys, GroupKeys(db, c, p) - todo)
    && AllStored(db, c, keys) && rows == SamplesOf(db, c, p, keys)
  }

  lemma ReadOneMore(db: Content, c: Catalog, p: Pgc, keys: seq<Key>, todo: set<Key>, rows: seq<Sample>, k: Key)
    requires ReadSoFar(db, c, p, keys, todo, rows) && k in todo
    ensures k in db.layer1.Get(c)
    ensures ReadSoFar(db, c, p, keys + [k], todo - {k}, rows + [SampleOf(db, c, p, k)])
  {
    hide SampleOf, SamplesOf;
    assert k in GroupKeys(db, c, p);
    SamplesAppend(db, c, p, keys, [k]);
    SamplesOfOne(db, c, p, k);
  }

  lemma ReadAll(db: Content, c: Catalog, p: Pgc, keys: seq<Key>, rows: seq<Sample>)
    requires ReadSoFar(db, c, p, keys, {}, rows)
    ensures multiset(rows) == multiset(GroupRows(db, c, p))
  {
    hide SamplesOf;
    var all := Listing(GroupKeys(db, c, p));
    assert GroupKeys(db, c, p) - {} == GroupKeys(db, c, p);
    ListingsAgree(keys, all);
    SamplesIgnoreOrder(db, c, p, keys, all);
  }

  method RowsOfPgc(db: Database, c: Catalog, p: Pgc) returns (rows: seq<Sample>)
    ensures multiset(rows) == multiset(GroupRows(db.Snapshot().content, c, p))
    ensures forall x | x in rows :: x.pgc == p
  {
    ghost var content := db.Snapshot().content;
    var todo := set k | k in db.layer1.Get(c) && k.record in db.records && db.records[k.record].pgc == Some(p);
    assert todo == GroupKeys(content, c, p);
    hide GroupKeys, GroupRows, SamplesOf, ReadSoFar;
    rows := [];
    ghost var keys := [];
    ReadNone(content, c, p);
    while todo != {}
      invariant ReadSoFar(content, c, p, keys, todo, rows)
      invariant forall x | x in rows :: x.pgc == p
      decreases todo
    {
      var k :| k in todo;
      ReadOneMore(content, c, p, keys, todo, rows, k);
      var compilation := Measured(c) && k.record in db.records && db.records[k.record].table in db.tables &&
        db.tables[db.records[k.record].table] == Compilation;
      rows, keys, todo := rows + [Sample(p, compilation, db.layer1.Get(c)[k])], keys + [k], todo - {k};
    }
    ReadAll(content, c, p, keys, rows);
  }

  lemma ReadNone(db: Content, c: Catalog, p: Pgc)
    ensures ReadSoFar(db, c, p, [], GroupKeys(db, c, p), [])
  {
  }

  lemma PgcsAppend(a: seq<Sample>, b: seq<Sample>)
    ensures PgcsOf(a + b) == PgcsOf(a) + PgcsOf(b)
  {
    assert forall x :: x in a + b <==> x in a || x in b;
  }

  lemma SelectFromOne(a: seq<Sample>, b: seq<Sample>, p: Pgc)
    ensures p !in PgcsOf(b) ==> Select(a + b, p) == Select(a, p)
    ensures p !in PgcsOf(a) ==> Select(a + b, p) == Select(b, p)
  {
    SelectAppend(a, b, p);
    SelectNonEmpty(a, p);
    SelectNonEmpty(b, p);
  }

  lemma SortedAppend(a: seq<Sample>, b: seq<Sample>)
    requires SortedByPgc(a) && SortedByPgc(b)
    requires forall p, q | p in PgcsOf(a) && q in PgcsOf(b) :: p.number < q.number
    ensures SortedByPgc(a + b)
  {
    assert forall x | x in a :: x.pgc in PgcsOf(a);
    assert forall x | x in b :: x.pgc in PgcsOf(b);
    forall i, j | 0 <= i < j < |a + b| ensures (a + b)[i].pgc.number <= (a + b)[j].pgc.number {
      assert i < |a| ==> (a + b)[i] in a;
      assert j >= |a| ==> (a + b)[j] in b;
    }
  }

  /** Consecutive answers together answer for their pages together. */
  lemma BatchesJoin(db: Content, c: Catalog, page: seq<Pgc>, rows: seq<Sample>, next: seq<Pgc>, more: seq<Sample>)
    requires IsBatch(db, c, page, rows) && IsBatch(db, c, next, more)
    requires AllBelow(page, next)
    ensures IsBatch(db, c, page + next, rows + more)
  {
    PgcsAppend(rows, more);
    SortedAppend(rows, more);
    forall p | p in page + next ensures multiset(Select(rows + more, p)) == multiset(GroupRows(db, c, p)) {
      SelectFromOne(rows, more, p);
      assert p in page <==> p in PgcsOf(rows);
      assert p in next <==> p in PgcsOf(more);
    }
  }

  ghost predicate AllBelow(page: seq<Pgc>, next: seq<Pgc>) {
    forall p, q | p in page && q in next :: p.number < q.number
  }

  lemma IncreasingPrefix(page: seq<Pgc>, i: nat)
    requires StrictlyIncreasing(page) && i < |page|
    ensures AllBelow(page[..i], [page[i]])
    ensures page[..i + 1] == page[..i] + [page[i]]
  {}

  lemma BatchOfOne(db: Content, c: Catalog, p: Pgc, rows: seq<Sample>)
    requires p in Populated(db, c)
    requires (forall x | x in rows :: x.pgc == p) && multiset(rows) == multiset(GroupRows(db, c, p))
    ensures IsBatch(db, c, [p], rows)
  {
    PopulatedGroup(db, c, p);
    assert |multiset(rows)| == |rows| && |multiset(GroupRows(db, c, p))| == |GroupRows(db, c, p)|;
    SelectAll(rows, p);
    assert rows[0] in rows;
    assert PgcsOf(rows) == {p};
  }

  /** `_query_new_pgc_records` behind the four readers. */
  method GetNewRecords(db: Database, c: Catalog, since: Time, limit: nat, cursor: int) returns (rows: seq<Sample>)
    ensures IsBatch(db.Snapshot().content, c, Page(db.Snapshot(), c, since, limit, cursor), rows)
  {
    var page := Page(db.Snapshot(), c, since, limit, cursor);
    PageEligible(db.Snapshot(), c, since, limit, cursor);
    rows := RowsOfPage(db, c, page);
  }

  lemma PageEligible(st: State, c: Catalog, since: Time, limit: nat, cursor: int)
    ensures StrictlyIncreasing(Page(st, c, since, limit, cursor))
    ensures forall p | p in Page(st, c, since, limit, cursor) :: p in Eligible(st, c, since, cursor)
    ensures var eligible := Eligible(st, c, since, cursor);
      |Page(st, c, since, limit, cursor)| == if |eligible| < limit then |eligible| else limit
  {
    var all := Ascending(Eligible(st, c, since, cursor));
    assert forall p | p in First(all, limit) :: p in all;
  }

  method RowsOfPage(db: Database, c: Catalog, page: seq<Pgc>) returns (rows: seq<Sample>)
    requires StrictlyIncreasing(page)
    requires forall p | p in page :: p in Populated(db.Snapshot().content, c)
    ensures IsBatch(db.Snapshot().content, c, page, rows)
  {
    rows := [];
    for i := 0 to |page|
      invariant IsBatch(db.Snapshot().content, c, page[..i], rows)
    {
      var more := RowsOfPgc(db, c, page[i]);
      BatchOfOne(db.Snapshot().content, c, page[i], more);
      IncreasingPrefix(page, i);
      BatchesJoin(db.Snapshot().content, c, page[..i], rows, [page[i]], more);
      rows := rows + more;
    }
    assert page[..|page|] == page;
  }
}

/** The layer-2 repository and the catalog import: paging, aggregation, saving, finalisation. */
module Layer2 {
  import opened Collections
  import opened Schema
  import opened Aggregation
  import opened Layers
  import opened Storage
  import opened Layer1

  // ---- The repository ----

  function SaveRows(l2: map<Pgc, Summary>, agg: seq<Saved>): map<Pgc, Summary> {
    if agg == [] then l2 else
      var last := agg[|agg| - 1];
      SaveRows(l2, agg[..|agg| - 1])[last.pgc := last.summary]
  }

  predicate DistinctPgcs(agg: seq<Saved>) {
    forall i, j | 0 <= i < j < |agg| :: agg[i].pgc != agg[j].pgc
  }

  /** INSERT ... SELECT ... ON CONFLICT DO UPDATE, which refuses to update one row twice. */
  method Save(db: Database, c: Catalog, agg: seq<Saved>) returns (ok: bool)
    modifies db`layer2
    ensures ok == DistinctPgcs(agg)
    ensures db.layer2 == if ok then old(db.layer2).Set(c, SaveRows(old(db.layer2).Get(c), agg)) else old(db.layer2)
  {
    if !DistinctPgcs(agg) {
      return false;
    }
    var l2 := db.layer2.Get(c);
    for i := 0 to |agg|
      invariant l2 == SaveRows(db.layer2.Get(c), agg[..i])
    {
      assert agg[..i + 1][..i] == agg[..i];
      l2 := l2[agg[i].pgc := agg[i].summary];
    }
    assert agg[..|agg|] == agg;
    db.layer2 := db.layer2.Set(c, l2);
    ok := true;
  }

  /** Layer-2 rows whose PGC has no layer-1 row left. */
  function Orphans(st: State, c: Catalog): set<Pgc> {
    set p | p in st.layer2.Get(c) && p !in Populated(st.content, c)
  }

  /** No layer-1 row among `keys` belongs to a record of `p`. */
  ghost predicate Rowless(db: Content, keys: set<Key>, p: Pgc) {
    forall k | k in keys && k.record in db.records :: db.records[k.record].pgc != Some(p)
  }

  /** NOT EXISTS over the join of records and layer-1 rows: the PGCs found by scanning it are not orphans. */
  method GetOrphanedPgcs(db: Database, c: Catalog) returns (orphans: set<Pgc>)
    ensures forall p :: p in orphans <==> p in db.layer2.Get(c) && Rowless(db.Snapshot().content, db.layer1.Get(c).Keys, p)
    ensures orphans == Orphans(db.Snapshot(), c)
  {
    var keys := db.layer1.Get(c).Keys;
    var todo := keys;
    orphans := db.layer2.Get(c).Keys;
    while todo != {}
      invariant todo <= keys
      invariant forall p :: p in orphans <==> p in db.layer2.Get(c) && Rowless(db.Snapshot().content, keys - todo, p)
      decreases todo
    {
      var k :| k in todo;
      if k.record in db.records && db.records[k.record].pgc.Some? {
        orphans := orphans - {db.records[k.record].pgc.value};
      }
      todo := todo - {k};
    }
    assert keys - todo == keys;
    OrphansAre(db.Snapshot(), c, orphans);
  }

  lemma OrphansAre(st: State, c: Catalog, orphans: set<Pgc>)
    requires forall p :: p in orphans <==> p in st.layer2.Get(c) && Rowless(st.content, st.content.layer1.Get(c).Keys, p)
    ensures orphans == Orphans(st, c)
  {
    forall p | p in st.layer2.Get(c) ensures p in orphans <==> p !in Populated(st.content, c) {
      if p in Populated(st.content, c) {
        var k :| k in st.content.layer1.Get(c) && k.record in st.content.records &&
          st.content.records[k.record].pgc == Some(p);
      }
    }
  }

  method RemovePgcs(db: Database, c: Catalog, pgcs: set<Pgc>)
    modifies db`layer2
    ensures db.layer2 == old(db.layer2).Set(c, old(db.layer2).Get(c) - pgcs)
  {
    db.layer2 := db.layer2.Set(c, db.layer2.Get(c) - pgcs);
  }

  method UpdateLastUpdateTime(db: Database, c: Catalog)
    modifies db`lastUpdate, db`clock
    ensures db.lastUpdate == old(db.lastUpdate).Set(c, old(db.clock)) && db.clock == old(db.clock) + 1
  {
    db.lastUpdate := db.lastUpdate.Set(c, db.clock);
    db.clock := db.clock + 1;
  }

  /** The rows of `done` are replaced by summaries of their groups, the others stay. */
  ghost predicate Refreshed(db: Content, c: Catalog, before: map<Pgc, Summary>, done: set<Pgc>, after: map<Pgc, Summary>) {
    && after.Keys == before.Keys + done
    && (forall p | p in done :: UpToDate(db, after, c, p))
    && (forall p | p in before && p !in done :: after[p] == before[p])
  }

  // ---- Paging ----

  /** One page is the head of what remains; the cursor it leaves skips exactly that page. */
  lemma PageStep(st: State, c: Catalog, since: Time, limit: nat, cursor: int)
    requires Page(st, c, since, limit, cursor) != []
    ensures var page := Page(st, c, since, limit, cursor);
            var next := page[|page| - 1].number;
            && cursor < next
            && Elements(page) <= Eligible(st, c, since, cursor)
            && Eligible(st, c, since, next) == Eligible(st, c, since, cursor) - Elements(page)
  {
    var eligible := Eligible(st, c, since, cursor);
    var page := Page(st, c, since, limit, cursor);
    FirstIsSplit(eligible, limit, Eligible(st, c, since, page[|page| - 1].number));
    assert page[|page| - 1] in Elements(page);
  }

  lemma FirstIsSplit(s: set<Pgc>, limit: nat, above: set<Pgc>)
    requires First(Ascending(s), limit) != []
    requires var page := First(Ascending(s), limit);
             forall p :: p in above <==> p in s && p.number > page[|page| - 1].number
    ensures above == s - Elements(First(Ascending(s), limit)) && Elements(First(Ascending(s), limit)) <= s
  {
    var page := First(Ascending(s), limit);
    assert page == Ascending(s)[..|page|];
    AscendingSplit(s, |page|, above);
  }

  lemma PageEmpty(st: State, c: Catalog, since: Time, limit: nat, cursor: int)
    requires Page(st, c, since, limit, cursor) == []
    ensures limit == 0 || Eligible(st, c, since, cursor) == {}
  {
    assert |Ascending(Eligible(st, c, since, cursor))| == |Eligible(st, c, since, cursor)|;
  }

  lemma BatchKeys(db: Content, c: Catalog, page: seq<Pgc>, rows: seq<Sample>)
    requires IsBatch(db, c, page, rows) && StrictlyIncreasing(page)
    ensures Ascending(PgcsOf(rows)) == page
  {
    AscendingUnique(page, PgcsOf(rows));
  }

  lemma NoRows(rows: seq<Sample>)
    ensures rows == [] <==> PgcsOf(rows) == {}
  {
    if rows != [] {
      assert rows[0].pgc in PgcsOf(rows);
    }
  }

  lemma LastRow(page: seq<Pgc>, rows: seq<Sample>)
    requires SortedByPgc(rows) && PgcsOf(rows) == Elements(page) && StrictlyIncreasing(page)
    ensures rows == [] <==> page == []
    ensures rows != [] ==> rows[|rows| - 1].pgc == page[|page| - 1]
  {
    NoRows(rows);
    if page != [] {
      var last := page[|page| - 1];
      assert last in Elements(page);
      var i :| 0 <= i < |rows| && rows[i].pgc == last;
      assert last.number <= rows[|rows| - 1].pgc.number;
      assert rows[|rows| - 1].pgc in PgcsOf(rows);
    }
  }

  /** The last row tells the cursor: it belongs to the last PGC of the page. */
  lemma BatchEnds(db: Content, c: Catalog, page: seq<Pgc>, rows: seq<Sample>)
    requires IsBatch(db, c, page, rows) && StrictlyIncreasing(page)
    ensures rows == [] <==> page == []
    ensures rows != [] ==> rows[|rows| - 1].pgc == page[|page| - 1]
  {
    hide SortedByPgc, StrictlyIncreasing, PgcsOf, Select, GroupRows;
    LastRow(page, rows);
  }

  // ---- One batch ----

  function SavedPgcs(agg: seq<Saved>): set<Pgc> {
    set x | x in agg :: x.pgc
  }

  lemma LastIsDistinct(agg: seq<Saved>)
    requires DistinctPgcs(agg) && agg != []
    ensures var front, last := agg[..|agg| - 1], agg[|agg| - 1];
            && DistinctPgcs(front) && last.pgc !in SavedPgcs(front)
            && SavedPgcs(agg) == SavedPgcs(front) + {last.pgc}
            && forall x :: x in agg <==> x in front || x == last
  {
    assert agg == agg[..|agg| - 1] + [agg[|agg| - 1]];
  }

  lemma {:induction false} SaveRowsEffect(l2: map<Pgc, Summary>, agg: seq<Saved>)
    requires DistinctPgcs(agg)
    ensures SaveRows(l2, agg).Keys == l2.Keys + SavedPgcs(agg)
    ensures forall x | x in agg :: SaveRows(l2, agg)[x.pgc] == x.summary
    ensures forall p | p in l2 && p !in SavedPgcs(agg) :: SaveRows(l2, agg)[p] == l2[p]
  {
    if agg != [] {
      hide DistinctPgcs;
      SaveRowsEffect(l2, agg[..|agg| - 1]);
      LastIsDistinct(agg);
    }
  }

  lemma AggregateDistinct(c: Catalog, tbl: seq<Sample>, agg: seq<Saved>)
    requires IsAggregate(c, tbl, agg)
    ensures DistinctPgcs(agg)
  {
    var keys := Ascending(PgcsOf(tbl));
    forall i, j | 0 <= i < j < |agg| ensures agg[i].pgc != agg[j].pgc {
      assert keys[i].number < keys[j].number;
    }
  }

  lemma AggregatePgcs(page: seq<Pgc>, agg: seq<Saved>)
    requires |agg| == |page| && forall i | 0 <= i < |agg| :: agg[i].pgc == page[i]
    ensures SavedPgcs(agg) == Elements(page)
  {
    forall p | p in page ensures p in SavedPgcs(agg) {
      var i :| 0 <= i < |page| && page[i] == p;
      assert agg[i] in agg;
    }
  }

  lemma AggregateOfBatch(db: Content, c: Catalog, page: seq<Pgc>, rows: seq<Sample>, agg: seq<Saved>)
    requires IsBatch(db, c, page, rows) && StrictlyIncreasing(page) && IsAggregate(c, rows, agg)
    ensures |agg| == |page| && SavedPgcs(agg) == Elements(page)
    ensures forall i | 0 <= i < |agg| :: IsSummary(c, GroupRows(db, c, agg[i].pgc), agg[i].summary)
  {
    BatchKeys(db, c, page, rows);
    AggregatePgcs(page, agg);
    forall i | 0 <= i < |agg| ensures IsSummary(c, GroupRows(db, c, agg[i].pgc), agg[i].summary) {
      var p := agg[i].pgc;
      assert p in page;
      SummaryIgnoresOrder(c, Select(rows, p), GroupRows(db, c, p), agg[i].summary);
    }
  }

  lemma SaveRefreshes(
    db: Content, c: Catalog, agg: seq<Saved>, before: map<Pgc, Summary>, done: set<Pgc>, l2: map<Pgc, Summary>)
    requires DistinctPgcs(agg) && Refreshed(db, c, before, done, l2)
    requires forall i | 0 <= i < |agg| :: IsSummary(c, GroupRows(db, c, agg[i].pgc), agg[i].summary)
    ensures Refreshed(db, c, before, done + SavedPgcs(agg), SaveRows(l2, agg))
  {
    hide IsSummary, GroupRows, SaveRows, DistinctPgcs;
    SaveRowsEffect(l2, agg);
    var after := SaveRows(l2, agg);
    forall p | p in done + SavedPgcs(agg) ensures UpToDate(db, after, c, p) {
      if p in SavedPgcs(agg) {
        var i :| 0 <= i < |agg| && agg[i].pgc == p;
        assert after[p] == agg[i].summary;
      } else {
        assert UpToDate(db, l2, c, p);
      }
    }
  }

  /** Saving the aggregate of a batch refreshes exactly the PGCs of its page. */
  lemma BatchRefreshes(
    db: Content, c: Catalog, page: seq<Pgc>, rows: seq<Sample>, agg: seq<Saved>,
    before: map<Pgc, Summary>, done: set<Pgc>, l2: map<Pgc, Summary>)
    requires IsBatch(db, c, page, rows) && StrictlyIncreasing(page) && IsAggregate(c, rows, agg)
    requires Refreshed(db, c, before, done, l2)
    ensures DistinctPgcs(agg) && |agg| == |page|
    ensures Refreshed(db, c, before, done + Elements(page), SaveRows(l2, agg))
  {
    AggregateDistinct(c, rows, agg);
    AggregateOfBatch(db, c, page, rows, agg);
    SaveRefreshes(db, c, agg, before, done, l2);
  }

  // ---- The loop over batches ----

  /** A batch as `read_batches` yields it: the cursor it was read at, its PGCs and its rows. */
  datatype Batch = Batch(cursor: int, page: seq<Pgc>, rows: seq<Sample>)

  ghost function PagesOf(log: seq<Batch>): seq<Pgc> {
    if log == [] then [] else PagesOf(log[..|log| - 1]) + log[|log| - 1].page
  }

  ghost function RowsOf(log: seq<Batch>): seq<Sample> {
    if log == [] then [] else RowsOf(log[..|log| - 1]) + log[|log| - 1].rows
  }

  /** The cursor after a log of batches. */
  ghost function CursorAfter(log: seq<Batch>): int {
    if log == [] || log[|log| - 1].page == [] then 0 else
      var page := log[|log| - 1].page;
      page[|page| - 1].number
  }

  /** Every page is non-empty, within the limit, answered in full, and begins beyond the cursor the last one left. */
  ghost predicate WellPaged(db: Content, c: Catalog, limit: nat, log: seq<Batch>) {
    log != [] ==>
      var before, last := log[..|log| - 1], log[|log| - 1];
      && WellPaged(db, c, limit, before)
      && 0 < |last.page| <= limit
      && IsBatch(db, c, last.page, last.rows)
      && last.cursor == CursorAfter(before)
      && forall p | p in last.page :: p.number > last.cursor
  }

  /** The PGCs read once the cursor has passed them. */
  function Passed(st: State, c: Catalog, since: Time, cursor: int): set<Pgc> {
    Eligible(st, c, since, 0) - Eligible(st, c, since, cursor)
  }

  /** The batches so far are together one unlimited answer for the PGCs the cursor has passed. */
  ghost predicate ReadUpTo(st: State, c: Catalog, since: Time, limit: nat, log: seq<Batch>) {
    && WellPaged(st.content, c, limit, log)
    && PagesOf(log) == Ascending(Passed(st, c, since, CursorAfter(log)))
    && IsBatch(st.content, c, PagesOf(log), RowsOf(log))
  }

  lemma ReadNothing(st: State, c: Catalog, since: Time, limit: nat)
    ensures ReadUpTo(st, c, since, limit, [])
  {
    assert Passed(st, c, since, 0) == {};
  }

  lemma {:induction false} CursorNonNegative(db: Content, c: Catalog, limit: nat, log: seq<Batch>)
    requires WellPaged(db, c, limit, log)
    ensures CursorAfter(log) >= 0
  {
    if log != [] {
      CursorNonNegative(db, c, limit, log[..|log| - 1]);
      var page := log[|log| - 1].page;
      assert page[|page| - 1] in page;
    }
  }

  lemma IncreasingAppend(a: seq<Pgc>, b: seq<Pgc>)
    requires StrictlyIncreasing(a) && StrictlyIncreasing(b) && AllBelow(a, b)
    ensures StrictlyIncreasing(a + b)
  {
    forall i, j | 0 <= i < j < |a + b| ensures (a + b)[i].number < (a + b)[j].number {
      assert i < |a| ==> (a + b)[i] in a;
      assert j >= |a| ==> (a + b)[j] in b;
    }
  }

  lemma AscendingAppend(s: set<Pgc>, b: seq<Pgc>)
    requires StrictlyIncreasing(b) && AllBelow(Ascending(s), b)
    ensures Ascending(s) + b == Ascending(s + Elements(b))
  {
    IncreasingAppend(Ascending(s), b);
    AscendingUnique(Ascending(s) + b, s + Elements(b));
  }

  /** Moving the cursor past a page passes exactly its PGCs. */
  lemma PassPage(st: State, c: Catalog, since: Time, limit: nat, cursor: int)
    requires cursor >= 0 && Page(st, c, since, limit, cursor) != []
    ensures var page := Page(st, c, since, limit, cursor);
            Passed(st, c, since, page[|page| - 1].number) == Passed(st, c, since, cursor) + Elements(page)
  {
    PageStep(st, c, since, limit, cursor);
    assert Eligible(st, c, since, cursor) <= Eligible(st, c, since, 0);
  }

  lemma PassedBelowPage(st: State, c: Catalog, since: Time, limit: nat, cursor: int)
    ensures AllBelow(Ascending(Passed(st, c, since, cursor)), Page(st, c, since, limit, cursor))
  {
    PageEligible(st, c, since, limit, cursor);
    forall p, q | p in Ascending(Passed(st, c, since, cursor)) && q in Page(st, c, since, limit, cursor)
      ensures p.number < q.number
    {
      assert p in Passed(st, c, since, cursor) && q in Eligible(st, c, since, cursor);
    }
  }

  lemma PassedInOrder(st: State, c: Catalog, since: Time, limit: nat, cursor: int)
    requires cursor >= 0 && Page(st, c, since, limit, cursor) != []
    ensures var page := Page(st, c, since, limit, cursor);
            Ascending(Passed(st, c, since, page[|page| - 1].number)) == Ascending(Passed(st, c, since, cursor)) + page
  {
    PassPage(st, c, since, limit, cursor);
    PassedBelowPage(st, c, since, limit, cursor);
    PageEligible(st, c, since, limit, cursor);
    AscendingAppend(Passed(st, c, since, cursor), Page(st, c, since, limit, cursor));
  }

  lemma LogAppend(log: seq<Batch>, b: Batch)
    ensures PagesOf(log + [b]) == PagesOf(log) + b.page && RowsOf(log + [b]) == RowsOf(log) + b.rows
  {
    assert (log + [b])[..|log + [b]| - 1] == log;
  }

  lemma WellPagedOn(db: Content, c: Catalog, limit: nat, log: seq<Batch>, b: Batch)
    requires WellPaged(db, c, limit, log)
    requires 0 < |b.page| <= limit && IsBatch(db, c, b.page, b.rows) && b.cursor == CursorAfter(log)
    requires forall p | p in b.page :: p.number > b.cursor
    ensures WellPaged(db, c, limit, log + [b])
  {
    assert (log + [b])[..|log + [b]| - 1] == log;
  }

  lemma PageBeyond(st: State, c: Catalog, since: Time, limit: nat, cursor: int)
    ensures |Page(st, c, since, limit, cursor)| <= limit
    ensures forall p | p in Page(st, c, since, limit, cursor) :: p.number > cursor
  {
    PageEligible(st, c, since, limit, cursor);
  }

  /** `b` is the answer to the next read after `log`. */
  ghost predicate NextBatch(st: State, c: Catalog, since: Time, limit: nat, log: seq<Batch>, b: Batch) {
    && b.cursor == CursorAfter(log)
    && b.page == Page(st, c, since, limit, b.cursor)
    && b.page != []
    && IsBatch(st.content, c, b.page, b.rows)
  }

  lemma PagedOn(st: State, c: Catalog, since: Time, limit: nat, log: seq<Batch>, b: Batch)
    requires WellPaged(st.content, c, limit, log) && NextBatch(st, c, since, limit, log, b)
    ensures WellPaged(st.content, c, limit, log + [b])
  {
    PageBeyond(st, c, since, limit, b.cursor);
    WellPagedOn(st.content, c, limit, log, b);
  }

  lemma OrderedOn(st: State, c: Catalog, since: Time, limit: nat, log: seq<Batch>, b: Batch)
    requires PagesOf(log) == Ascending(Passed(st, c, since, CursorAfter(log)))
    requires CursorAfter(log) >= 0 && NextBatch(st, c, since, limit, log, b)
    ensures PagesOf(log + [b]) == Ascending(Passed(st, c, since, CursorAfter(log + [b])))
  {
    LogAppend(log, b);
    PassedInOrder(st, c, since, limit, b.cursor);
  }

  lemma AnsweredOn(st: State, c: Catalog, since: Time, limit: nat, log: seq<Batch>, b: Batch)
    requires PagesOf(log) == Ascending(Passed(st, c, since, CursorAfter(log)))
    requires IsBatch(st.content, c, PagesOf(log), RowsOf(log)) && NextBatch(st, c, since, limit, log, b)
    ensures IsBatch(st.content, c, PagesOf(log + [b]), RowsOf(log + [b]))
  {
    LogAppend(log, b);
    PassedBelowPage(st, c, since, limit, b.cursor);
    BatchesJoin(st.content, c, PagesOf(log), RowsOf(log), b.page, b.rows);
  }

  lemma ReadOn(st: State, c: Catalog, since: Time, limit: nat, log: seq<Batch>, b: Batch)
    requires ReadUpTo(st, c, since, limit, log) && NextBatch(st, c, since, limit, log, b)
    ensures ReadUpTo(st, c, since, limit, log + [b])
  {
    CursorNonNegative(st.content, c, limit, log);
    PagedOn(st, c, since, limit, log, b);
    OrderedOn(st, c, since, limit, log, b);
    AnsweredOn(st, c, since, limit, log, b);
  }

  lemma PageFrame(st: State, l2: PerCatalog<map<Pgc, Summary>>, c: Catalog, since: Time, limit: nat, cursor: int)
    ensures Page(st.(layer2 := l2), c, since, limit, cursor) == Page(st, c, since, limit, cursor)
  {
    assert Eligible(st.(layer2 := l2), c, since, cursor) == Eligible(st, c, since, cursor);
  }

  // ---- The statements of one batch ----

  /** A read that found something: the page at the cursor and all its rows. */
  ghost predicate ReadsPage(s: State, c: Catalog, since: Time, limit: nat, cursor: int, page: seq<Pgc>, rows: seq<Sample>) {
    page == Page(s, c, since, limit, cursor) && page != [] && IsBatch(s.content, c, page, rows)
  }

  /** A save of the aggregate of some rows, whatever the tables hold by now. */
  ghost predicate SavesRows(s: State, t: State, c: Catalog, rows: seq<Sample>) {
    exists agg :: IsAggregate(c, rows, agg) && t == s.(layer2 := s.layer2.Set(c, SaveRows(s.layer2.Get(c), agg)))
  }

  // ---- The import ----

  /** Layer 2 after the PGCs of `done` have been saved, or not in a dry run. */
  ghost predicate SavedSoFar(st: State, c: Catalog, dryRun: bool, done: set<Pgc>, l2: PerCatalog<map<Pgc, Summary>>) {
    if dryRun then l2 == st.layer2
    else Refreshed(st.content, c, st.layer2.Get(c), done, l2.Get(c)) && l2 == st.layer2.Set(c, l2.Get(c))
  }

  /** The body of the import loop: aggregate one batch and, unless dry, save it. */
  method SaveBatch(db: Database, c: Catalog, rows: seq<Sample>, dryRun: bool,
                   ghost st: State, ghost page: seq<Pgc>, ghost done: set<Pgc>) returns (count: nat)
    requires IsBatch(st.content, c, page, rows) && StrictlyIncreasing(page)
    requires SavedSoFar(st, c, dryRun, done, db.layer2)
    modifies db`layer2
    ensures count == |page|
    ensures SavedSoFar(st, c, dryRun, done + Elements(page), db.layer2)
    ensures if dryRun then db.layer2 == old(db.layer2) else SavesRows(old(db.Snapshot()), db.Snapshot(), c, rows)
  {
    var agg := Aggregate(c, rows);
    ghost var before := db.layer2;
    ghost var was := db.Snapshot();
    if dryRun {
      AggregateOfBatch(st.content, c, page, rows, agg);
    } else {
      BatchRefreshes(st.content, c, page, rows, agg, st.layer2.Get(c), done, db.layer2.Get(c));
      var ok := Save(db, c, agg);
      SetTwice(st.layer2, c, before.Get(c), SaveRows(before.Get(c), agg));
      assert IsAggregate(c, rows, agg);
      assert db.Snapshot() == was.(layer2 := was.layer2.Set(c, SaveRows(was.layer2.Get(c), agg)));
    }
    count := |agg|;
  }

  lemma SetTwice<T(!new)>(l2: PerCatalog<T>, c: Catalog, x: T, y: T)
    ensures l2.Set(c, x).Set(c, y) == l2.Set(c, y)
  {
    SamePerCatalog(l2.Set(c, x).Set(c, y), l2.Set(c, y));
  }

  lemma PageSize(st: State, c: Catalog, since: Time, limit: nat, cursor: int)
    requires cursor >= 0 && Page(st, c, since, limit, cursor) != []
    ensures var page := Page(st, c, since, limit, cursor);
            |Passed(st, c, since, page[|page| - 1].number)| == |Passed(st, c, since, cursor)| + |page|
  {
    PassedInOrder(st, c, since, limit, cursor);
  }

  lemma FewerEligible(st: State, c: Catalog, since: Time, limit: nat, cursor: int)
    requires Page(st, c, since, limit, cursor) != []
    ensures var page := Page(st, c, since, limit, cursor);
            |Eligible(st, c, since, page[|page| - 1].number)| < |Eligible(st, c, since, cursor)|
  {
    var page := Page(st, c, since, limit, cursor);
    PageStep(st, c, since, limit, cursor);
    var last := page[|page| - 1];
    assert last in Elements(page);
    SmallerSet(Eligible(st, c, since, last.number), Eligible(st, c, since, cursor), last);
  }

  lemma SmallerSet(a: set<Pgc>, b: set<Pgc>, x: Pgc)
    requires a <= b && x in b && x !in a
    ensures |a| < |b|
  {
    assert a <= b - {x};
    SubsetSize(a, b - {x});
  }

  lemma {:induction false} SubsetSize(a: set<Pgc>, b: set<Pgc>)
    requires a <= b
    ensures |a| <= |b|
  {
    if a != {} {
      var x := Member(a);
      SubsetSize(a - {x}, b - {x});
    }
  }

  lemma PassedAll(st: State, c: Catalog, since: Time, limit: nat, cursor: int)
    requires cursor >= 0 && Page(st, c, since, limit, cursor) == []
    ensures limit > 0 ==> Passed(st, c, since, cursor) == Eligible(st, c, since, 0)
  {
    PageEmpty(st, c, since, limit, cursor);
  }

  lemma NoPages(st: State, c: Catalog, since: Time, limit: nat, log: seq<Batch>)
    requires limit == 0 && WellPaged(st.content, c, limit, log)
    ensures log == [] && Passed(st, c, since, CursorAfter(log)) == {}
  {}

  function Read(st: State, c: Catalog, since: Time, limit: nat): set<Pgc> {
    if limit == 0 then {} else Eligible(st, c, since, 0)
  }

  /** Where the import stands after the batches of `log`. */
  ghost predicate Progress(st: State, c: Catalog, since: Time, limit: nat, dryRun: bool,
                           log: seq<Batch>, saved: nat, l2: PerCatalog<map<Pgc, Summary>>) {
    && ReadUpTo(st, c, since, limit, log)
    && saved == |Passed(st, c, since, CursorAfter(log))|
    && SavedSoFar(st, c, dryRun, Passed(st, c, since, CursorAfter(log)), l2)
  }

  lemma ProgressStart(st: State, c: Catalog, since: Time, limit: nat, dryRun: bool)
    ensures Progress(st, c, since, limit, dryRun, [], 0, st.layer2)
  {
    ReadNothing(st, c, since, limit);
    assert Passed(st, c, since, 0) == {};
    SamePerCatalog(st.layer2, st.layer2.Set(c, st.layer2.Get(c)));
  }

  lemma ProgressParts(st: State, c: Catalog, since: Time, limit: nat, dryRun: bool, log: seq<Batch>, saved: nat,
                      l2: PerCatalog<map<Pgc, Summary>>)
    requires Progress(st, c, since, limit, dryRun, log, saved, l2)
    ensures ReadUpTo(st, c, since, limit, log) && WellPaged(st.content, c, limit, log)
    ensures saved == |Passed(st, c, since, CursorAfter(log))|
    ensures SavedSoFar(st, c, dryRun, Passed(st, c, since, CursorAfter(log)), l2)
  {}

  lemma CursorOn(log: seq<Batch>, b: Batch)
    requires b.page != []
    ensures CursorAfter(log + [b]) == b.page[|b.page| - 1].number
  {}

  lemma ProgressOn(st: State, c: Catalog, since: Time, limit: nat, dryRun: bool, log: seq<Batch>, saved: nat, b: Batch,
                   l2: PerCatalog<map<Pgc, Summary>>)
    requires ReadUpTo(st, c, since, limit, log) && WellPaged(st.content, c, limit, log)
    requires saved == |Passed(st, c, since, CursorAfter(log))|
    requires NextBatch(st, c, since, limit, log, b)
    requires SavedSoFar(st, c, dryRun, Passed(st, c, since, CursorAfter(log)) + Elements(b.page), l2)
    ensures Progress(st, c, since, limit, dryRun, log + [b], saved + |b.page|, l2)
  {
    hide ReadUpTo, SavedSoFar, WellPaged, Passed, Page, IsBatch, CursorAfter;
    CursorNonNegative(st.content, c, limit, log);
    CursorOn(log, b);
    ReadOn(st, c, since, limit, log, b);
    PageSize(st, c, since, limit, b.cursor);
    PassPage(st, c, since, limit, b.cursor);
  }

  /** One turn of the loop as statements: a read that is empty, or one that is not and, unless dry, the save of its rows. */
  ghost predicate Turn(s: State, t: State, c: Catalog, since: Time, limit: nat, dryRun: bool, cursor: int, next: int) {
    if Page(s, c, since, limit, cursor) == [] then t == s && next == cursor
    else exists page: seq<Pgc>, rows: seq<Sample> ::
      && ReadsPage(s, c, since, limit, cursor, page, rows)
      && (if dryRun then t == s else SavesRows(s, t, c, rows))
      && next == page[|page| - 1].number
  }

  lemma TurnOf(s: State, t: State, c: Catalog, since: Time, limit: nat, dryRun: bool, cursor: int,
               page: seq<Pgc>, rows: seq<Sample>)
    requires ReadsPage(s, c, since, limit, cursor, page, rows)
    requires if dryRun then t == s else SavesRows(s, t, c, rows)
    ensures Turn(s, t, c, since, limit, dryRun, cursor, page[|page| - 1].number)
  {}

  lemma EmptyTurn(s: State, c: Catalog, since: Time, limit: nat, dryRun: bool, cursor: int)
    requires Page(s, c, since, limit, cursor) == []
    ensures Turn(s, s, c, since, limit, dryRun, cursor, cursor)
  {}

  /** One turn of `read_batches` with the import's loop body: read at the cursor, stop if empty, else save and move on. */
  method ImportStep(db: Database, c: Catalog, since: Time, limit: nat, dryRun: bool, cursor: int, saved: nat,
                    ghost st: State, ghost log: seq<Batch>)
    returns (more: bool, saved': nat, cursor': int, ghost log': seq<Batch>)
    requires db.Snapshot() == st.(layer2 := db.layer2)
    requires cursor == CursorAfter(log) && Progress(st, c, since, limit, dryRun, log, saved, db.layer2)
    modifies db`layer2
    ensures cursor' == CursorAfter(log') && Progress(st, c, since, limit, dryRun, log', saved', db.layer2)
    ensures more ==> |Eligible(st, c, since, cursor')| < |Eligible(st, c, since, cursor)|
    ensures !more ==> Passed(st, c, since, cursor') == Read(st, c, since, limit)
    ensures Turn(old(db.Snapshot()), db.Snapshot(), c, since, limit, dryRun, cursor, cursor')
  {
    hide Progress, ReadUpTo, SavedSoFar, WellPaged, Eligible, Passed, Page, Read, IsBatch, StrictlyIncreasing, CursorAfter,
      SavesRows, Turn;
    ProgressParts(st, c, since, limit, dryRun, log, saved, db.layer2);
    ghost var was := db.Snapshot();
    var rows := GetNewRecords(db, c, since, limit, cursor);
    PageFrame(st, db.layer2, c, since, limit, cursor);
    ghost var page := Page(st, c, since, limit, cursor);
    ghost var b := Batch(cursor, page, rows);
    PageEligible(st, c, since, limit, cursor);
    BatchEnds(st.content, c, page, rows);
    if |rows| == 0 {
      AllRead(st, c, since, limit, log);
      EmptyTurn(was, c, since, limit, dryRun, cursor);
      return false, saved, cursor, log;
    }
    var count := SaveBatch(db, c, rows, dryRun, st, page, Passed(st, c, since, cursor));
    TurnOf(was, db.Snapshot(), c, since, limit, dryRun, cursor, page, rows);
    ProgressOn(st, c, since, limit, dryRun, log, saved, b, db.layer2);
    FewerEligible(st, c, since, limit, cursor);
    CursorOn(log, b);
    more, saved', cursor', log' := true, saved + count, rows[|rows| - 1].pgc.number, log + [b];
  }

  /** `read_batches` over the reader of the catalog, with the import's loop body. */
  method ImportBatches(db: Database, c: Catalog, since: Time, limit: nat, dryRun: bool)
    returns (saved: nat, ghost log: seq<Batch>)
    modifies db`layer2
    ensures Progress(old(db.Snapshot()), c, since, limit, dryRun, log, saved, db.layer2)
    ensures Passed(old(db.Snapshot()), c, since, CursorAfter(log)) == Read(old(db.Snapshot()), c, since, limit)
  {
    hide Progress, Read, Eligible, Passed;
    ghost var st := db.Snapshot();
    saved, log := 0, [];
    var cursor, more := 0, true;
    ProgressStart(st, c, since, limit, dryRun);
    while more
      invariant db.Snapshot() == st.(layer2 := db.layer2)
      invariant cursor == CursorAfter(log) && Progress(st, c, since, limit, dryRun, log, saved, db.layer2)
      invariant !more ==> Passed(st, c, since, cursor) == Read(st, c, since, limit)
      decreases more, |Eligible(st, c, since, cursor)|
    {
      more, saved, cursor, log := ImportStep(db, c, since, limit, dryRun, cursor, saved, st, log);
    }
  }

  lemma AllRead(st: State, c: Catalog, since: Time, limit: nat, log: seq<Batch>)
    requires WellPaged(st.content, c, limit, log) && Page(st, c, since, limit, CursorAfter(log)) == []
    ensures Passed(st, c, since, CursorAfter(log)) == Read(st, c, since, limit)
  {
    CursorNonNegative(st.content, c, limit, log);
    PassedAll(st, c, since, limit, CursorAfter(log));
    if limit == 0 {
      NoPages(st, c, since, limit, log);
    }
  }
}

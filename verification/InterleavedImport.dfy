/** An import statement by statement, with writers between any two: what it gets right, and which writes are too late. */
module InterleavedImport {
  import opened Collections
  import opened Schema
  import opened Aggregation
  import opened Layers
  import opened Layer1
  import opened Layer2
  import opened Writers
  import opened Import

  /** Where an import stands: what its next statement is, and what it holds in memory. */
  datatype Phase =
    | Reading(cursor: int)
    | Saving(page: seq<Pgc>, rows: seq<Sample>)
    | Cleaning
    | Deleting(orphans: set<Pgc>)
    | Stamping
    | Over

  datatype Moment = Moment(state: State, phase: Phase)

  /** A write commits with the marks of the time its transaction began; a change of classes marks nothing. */
  datatype Event =
    | Write(touched: set<Pgc>, begin: Time)
    | Reclassify(changed: set<Pgc>)
    | ReadPage
    | SavePage
    | ReadNone
    | FindOrphans
    | DeleteOrphans
    | SetWatermark

  /** What an import is of: the catalog, the time it reads from and the batch size. */
  datatype Job = Job(catalog: Catalog, since: Time, limit: nat)

  function LastOf(page: seq<Pgc>): int {
    if page == [] then 0 else page[|page| - 1].number
  }

  function WithLayer2(s: State, c: Catalog, l2: map<Pgc, Summary>): (t: State)
    ensures t.layer2.Get(c) == l2
  {
    s.(layer2 := s.layer2.Set(c, l2))
  }

  /** Datatypes change, and at most the groups of `changed` with them. */
  ghost predicate Reclassified(s: State, t: State, changed: set<Pgc>) {
    && Valid(t) && t == s.(content := t.content) && SameButClasses(s.content, t.content)
    && forall c: Catalog, p | p !in changed :: SameGroup(s.content, t.content, c, p)
  }

  /** One statement of the import, or one write of anyone else. */
  ghost predicate Step(m: Moment, e: Event, n: Moment, job: Job) {
    var Job(c, since, limit) := job;
    match e
    case Write(touched, begin) =>
      !m.phase.Over? && n.phase == m.phase && KeepsFrom(m.state, n.state, touched, begin)
    case Reclassify(changed) =>
      !m.phase.Over? && n.phase == m.phase && Reclassified(m.state, n.state, changed)
    case ReadPage =>
      && m.phase.Reading? && n.phase.Saving? && n.state == m.state
      && ReadsPage(m.state, c, since, limit, m.phase.cursor, n.phase.page, n.phase.rows)
    case SavePage =>
      m.phase.Saving? && n.phase == Reading(LastOf(m.phase.page)) && SavesRows(m.state, n.state, c, m.phase.rows)
    case ReadNone =>
      m.phase.Reading? && Page(m.state, c, since, limit, m.phase.cursor) == [] && n == m.(phase := Cleaning)
    case FindOrphans => m.phase.Cleaning? && n == m.(phase := Deleting(Orphans(m.state, c)))
    case DeleteOrphans =>
      && m.phase.Deleting?
      && n == Moment(WithLayer2(m.state, c, m.state.layer2.Get(c) - m.phase.orphans), Stamping)
    case SetWatermark =>
      && m.phase.Stamping?
      && n == Moment(m.state.(lastUpdate := m.state.lastUpdate.Set(c, m.state.clock), clock := m.state.clock + 1), Over)
  }

  ghost predicate IsImportRun(run: seq<Moment>, events: seq<Event>, job: Job) {
    && |run| == |events| + 1
    && run[0].phase == Reading(0)
    && forall i | 0 <= i < |events| :: Step(run[i], events[i], run[i + 1], job)
  }

  /** What an import may count on when it starts. */
  ghost predicate Starts(s: State, job: Job) {
    && Valid(s) && Positive(s) && job.limit >= 1
    && job.since <= s.lastUpdate.Get(job.catalog)
    && forall p :: Fresh(s, job.catalog, p)
  }

  // ---- Late writes ----

  /** The import has read all it will read of `p`: that page is behind the cursor or in hand, or no page is left. */
  predicate Late(phase: Phase, p: Pgc) {
    match phase
    case Reading(cursor) => p.number <= cursor
    case Saving(page, _) => p.number <= LastOf(page)
    case _ => true
  }

  /** The event may change the rows of `p`, and the import will not read `p` again: it is past it, or finds no mark. */
  predicate WritesLate(m: Moment, e: Event, since: Time, p: Pgc) {
    match e
    case Write(touched, begin) => p in touched && (Late(m.phase, p) || begin <= since)
    case Reclassify(changed) =>
      p in changed && (Late(m.phase, p) || !(p in m.state.pgcs && m.state.pgcs[p] > since))
    case _ => false
  }

  /** One of the first `k` events is a late write to `p`. */
  ghost predicate LateBy(run: seq<Moment>, events: seq<Event>, job: Job, k: nat, p: Pgc)
    requires k <= |events| <= |run|
  {
    exists i :: 0 <= i < k && WritesLate(run[i], events[i], job.since, p)
  }

  /** Layer 2 has the row of `p` that its layer-1 rows give, or none if there are none. */
  ghost predicate Settled(s: State, c: Catalog, p: Pgc) {
    if p in Populated(s.content, c) then UpToDate(s.content, s.layer2.Get(c), c, p) else p !in s.layer2.Get(c)
  }

  ghost predicate UpToDateIfPopulated(s: State, c: Catalog, p: Pgc) {
    p in Populated(s.content, c) ==> UpToDate(s.content, s.layer2.Get(c), c, p)
  }

  /** The row of `p` is right, or an import still to read beyond `cursor` will find `p`. */
  ghost predicate Ahead(s: State, c: Catalog, since: Time, cursor: int, p: Pgc) {
    UpToDateIfPopulated(s, c, p) || (p.number > cursor && p in s.pgcs && s.pgcs[p] > since)
  }

  /** What holds at each moment for a PGC that was not written late. */
  ghost predicate OnCourse(m: Moment, c: Catalog, since: Time, p: Pgc) {
    match m.phase
    case Reading(cursor) => Ahead(m.state, c, since, cursor, p)
    case Saving(page, rows) =>
      if p in page then multiset(Select(rows, p)) == multiset(GroupRows(m.state.content, c, p))
      else Ahead(m.state, c, since, LastOf(page), p)
    case Cleaning => UpToDateIfPopulated(m.state, c, p)
    case Deleting(orphans) =>
      && UpToDateIfPopulated(m.state, c, p)
      && (p in m.state.layer2.Get(c) ==> (p in orphans <==> p !in Populated(m.state.content, c)))
    case _ => Settled(m.state, c, p)
  }

  /** What holds at each moment whatever was written. */
  ghost predicate Sane(m: Moment, since: Time) {
    && Valid(m.state)
    && (m.phase.Saving? ==> HoldsPage(m.phase.page, m.phase.rows))
  }

  ghost predicate HoldsPage(page: seq<Pgc>, rows: seq<Sample>) {
    page != [] && StrictlyIncreasing(page) && PgcsOf(rows) == Elements(page)
  }

  // ---- One statement ----

  lemma WriteKeepsAhead(s: State, t: State, touched: set<Pgc>, begin: Time, c: Catalog, since: Time, cursor: int, p: Pgc)
    requires KeepsFrom(s, t, touched, begin) && (p in touched ==> p.number > cursor && begin > since)
    requires Ahead(s, c, since, cursor, p)
    ensures Ahead(t, c, since, cursor, p)
  {
    if p in touched {
      assert p in Populated(t.content, c) ==> p in t.pgcs;
    } else {
      SameGroupRows(s.content, t.content, c, p);
    }
  }

  lemma WriteKeepsOthers(m: Moment, n: Moment, touched: set<Pgc>, begin: Time, c: Catalog, since: Time, p: Pgc)
    requires KeepsFrom(m.state, n.state, touched, begin) && n.phase == m.phase && p !in touched && !m.phase.Reading?
    requires OnCourse(m, c, since, p)
    ensures OnCourse(n, c, since, p)
  {
    hide GroupRows, Populated;
    SameGroupRows(m.state.content, n.state.content, c, p);
    assert p in m.state.pgcs ==> n.state.pgcs[p] == m.state.pgcs[p];
  }

  lemma BehindPage(page: seq<Pgc>, p: Pgc)
    requires StrictlyIncreasing(page) && p in page
    ensures p.number <= LastOf(page)
  {}

  lemma WriteOnCourse(m: Moment, n: Moment, touched: set<Pgc>, begin: Time, job: Job, p: Pgc)
    requires Sane(m, job.since) && Step(m, Write(touched, begin), n, job)
    requires !WritesLate(m, Write(touched, begin), job.since, p) && OnCourse(m, job.catalog, job.since, p)
    ensures OnCourse(n, job.catalog, job.since, p)
  {
    hide KeepsFrom, Valid, Ahead, UpToDateIfPopulated, StrictlyIncreasing;
    var Job(c, since, _) := job;
    if m.phase.Reading? {
      WriteKeepsAhead(m.state, n.state, touched, begin, c, since, m.phase.cursor, p);
    } else if p !in touched {
      WriteKeepsOthers(m, n, touched, begin, c, since, p);
    } else if p !in m.phase.page {
      WriteKeepsAhead(m.state, n.state, touched, begin, c, since, LastOf(m.phase.page), p);
    } else {
      BehindPage(m.phase.page, p);
      assert false;
    }
  }

  lemma ReclassifiedOnCourse(m: Moment, n: Moment, changed: set<Pgc>, job: Job, p: Pgc)
    requires Sane(m, job.since) && Step(m, Reclassify(changed), n, job)
    requires !WritesLate(m, Reclassify(changed), job.since, p) && OnCourse(m, job.catalog, job.since, p)
    ensures OnCourse(n, job.catalog, job.since, p)
  {
    hide Valid, StrictlyIncreasing, GroupRows, Populated, SameButClasses;
    if p !in changed {
      SameGroupRows(m.state.content, n.state.content, job.catalog, p);
    } else if m.phase.Saving? && p in m.phase.page {
      BehindPage(m.phase.page, p);
      assert false;
    }
  }

  lemma ReadOnCourse(m: Moment, n: Moment, job: Job, p: Pgc)
    requires Step(m, ReadPage, n, job) && OnCourse(m, job.catalog, job.since, p)
    ensures OnCourse(n, job.catalog, job.since, p)
    ensures HoldsPage(n.phase.page, n.phase.rows)
  {
    hide IsBatch, Page, GroupRows, UpToDate, Populated, Select, StrictlyIncreasing;
    PageEligible(m.state, job.catalog, job.since, job.limit, m.phase.cursor);
    PageStep(m.state, job.catalog, job.since, job.limit, m.phase.cursor);
    ReadParts(m.state, job.catalog, n.phase.page, n.phase.rows);
    if p !in n.phase.page && !UpToDateIfPopulated(m.state, job.catalog, p) {
      assert p in Eligible(m.state, job.catalog, job.since, m.phase.cursor);
      assert p in Eligible(m.state, job.catalog, job.since, LastOf(n.phase.page));
    }
  }

  lemma ReadParts(s: State, c: Catalog, page: seq<Pgc>, rows: seq<Sample>)
    requires IsBatch(s.content, c, page, rows)
    ensures PgcsOf(rows) == Elements(page)
    ensures forall p | p in page :: multiset(Select(rows, p)) == multiset(GroupRows(s.content, c, p))
  {}

  /** The aggregate has a row of `p` just if some row is one of `p`, and it is a summary of those. */
  lemma AggregateRow(c: Catalog, rows: seq<Sample>, agg: seq<Saved>, p: Pgc)
    requires IsAggregate(c, rows, agg)
    ensures p in PgcsOf(rows) <==> p in SavedPgcs(agg)
    ensures forall x | x in agg && x.pgc == p :: IsSummary(c, Select(rows, p), x.summary)
  {
    var keys := Ascending(PgcsOf(rows));
    if p in PgcsOf(rows) {
      assert p in keys;
      var i :| 0 <= i < |keys| && keys[i] == p;
      assert agg[i] in agg;
    }
    forall x | x in agg ensures x.pgc in keys {
      var i :| 0 <= i < |agg| && agg[i] == x;
    }
  }

  /** A save replaces the rows of exactly the PGCs read, by summaries of what was read. */
  lemma SavedRow(s: State, t: State, c: Catalog, rows: seq<Sample>, p: Pgc)
    requires SavesRows(s, t, c, rows)
    ensures t == WithLayer2(s, c, t.layer2.Get(c))
    ensures p in PgcsOf(rows) ==> p in t.layer2.Get(c) && IsSummary(c, Select(rows, p), t.layer2.Get(c)[p])
    ensures p !in PgcsOf(rows) ==> (p in t.layer2.Get(c) <==> p in s.layer2.Get(c))
    ensures p !in PgcsOf(rows) && p in s.layer2.Get(c) ==> t.layer2.Get(c)[p] == s.layer2.Get(c)[p]
  {
    hide IsAggregate, IsSummary, PgcsOf, DistinctPgcs;
    var agg: seq<Saved> :| IsAggregate(c, rows, agg) && t == WithLayer2(s, c, SaveRows(s.layer2.Get(c), agg));
    AggregateDistinct(c, rows, agg);
    SaveRowsEffect(s.layer2.Get(c), agg);
    AggregateRow(c, rows, agg, p);
    var l2 := SaveRows(s.layer2.Get(c), agg);
    assert t == WithLayer2(s, c, l2);
    assert t.layer2.Get(c) == l2;
    if p in PgcsOf(rows) {
      var x: Saved :| x in agg && x.pgc == p;
      assert t.layer2.Get(c)[x.pgc] == x.summary;
    }
  }

  lemma SaveOnCourse(m: Moment, n: Moment, job: Job, p: Pgc)
    requires Sane(m, job.since) && Step(m, SavePage, n, job) && OnCourse(m, job.catalog, job.since, p)
    ensures OnCourse(n, job.catalog, job.since, p)
    ensures n.state == WithLayer2(m.state, job.catalog, n.state.layer2.Get(job.catalog))
  {
    hide SavesRows, IsSummary, Select, PgcsOf, GroupRows, Valid, Populated, StrictlyIncreasing;
    var rows := m.phase.rows;
    SavedRow(m.state, n.state, job.catalog, rows, p);
    if p in m.phase.page {
      SummaryIgnoresOrder(job.catalog, Select(rows, p), GroupRows(m.state.content, job.catalog, p),
        n.state.layer2.Get(job.catalog)[p]);
    }
  }

  lemma ReadNoneOnCourse(m: Moment, n: Moment, job: Job, p: Pgc)
    requires job.limit >= 1 && Step(m, ReadNone, n, job) && OnCourse(m, job.catalog, job.since, p)
    ensures OnCourse(n, job.catalog, job.since, p)
  {
    PageEmpty(m.state, job.catalog, job.since, job.limit, m.phase.cursor);
    assert p !in Eligible(m.state, job.catalog, job.since, m.phase.cursor);
  }

  lemma StepOnCourse(m: Moment, e: Event, n: Moment, job: Job, p: Pgc)
    requires Sane(m, job.since) && job.limit >= 1 && Step(m, e, n, job) && !WritesLate(m, e, job.since, p)
    requires OnCourse(m, job.catalog, job.since, p)
    ensures OnCourse(n, job.catalog, job.since, p)
  {
    match e
    case Write(touched, begin) => WriteOnCourse(m, n, touched, begin, job, p);
    case Reclassify(changed) => ReclassifiedOnCourse(m, n, changed, job, p);
    case ReadPage => ReadOnCourse(m, n, job, p);
    case SavePage => SaveOnCourse(m, n, job, p);
    case ReadNone => ReadNoneOnCourse(m, n, job, p);
    case _ =>
  }

  lemma SameTablesValid(s: State, l2: PerCatalog<map<Pgc, Summary>>)
    requires Valid(s)
    ensures Valid(s.(layer2 := l2))
  {}

  lemma StampedValid(s: State, c: Catalog)
    requires Valid(s)
    ensures Valid(s.(lastUpdate := s.lastUpdate.Set(c, s.clock), clock := s.clock + 1))
  {}

  lemma StepIsSane(m: Moment, e: Event, n: Moment, job: Job)
    requires Sane(m, job.since) && Step(m, e, n, job)
    ensures Sane(n, job.since)
  {
    hide Valid, SavesRows, StrictlyIncreasing, PgcsOf;
    match e
    case SavePage =>
      SavedRow(m.state, n.state, job.catalog, m.phase.rows, m.phase.page[0]);
      SameTablesValid(m.state, n.state.layer2);
    case ReadPage =>
      PageEligible(m.state, job.catalog, job.since, job.limit, m.phase.cursor);
      ReadParts(m.state, job.catalog, n.phase.page, n.phase.rows);
    case DeleteOrphans => SameTablesValid(m.state, n.state.layer2);
    case SetWatermark => StampedValid(m.state, job.catalog);
    case _ =>
  }

  // ---- Whole runs ----

  lemma StartOnCourse(s: State, job: Job, p: Pgc)
    requires Starts(s, job)
    ensures Sane(Moment(s, Reading(0)), job.since) && OnCourse(Moment(s, Reading(0)), job.catalog, job.since, p)
  {
    assert Fresh(s, job.catalog, p);
  }

  lemma {:induction false} RunIsSane(run: seq<Moment>, events: seq<Event>, job: Job, k: nat)
    requires IsImportRun(run, events, job) && Starts(run[0].state, job) && k <= |events|
    ensures Sane(run[k], job.since)
  {
    hide Sane, Starts, Step;
    if k == 0 {
      StartOnCourse(run[0].state, job, Pgc(0));
    } else {
      RunIsSane(run, events, job, k - 1);
      StepIsSane(run[k - 1], events[k - 1], run[k], job);
    }
  }

  lemma {:induction false} RunOnCourse(run: seq<Moment>, events: seq<Event>, job: Job, k: nat, p: Pgc)
    requires IsImportRun(run, events, job) && Starts(run[0].state, job) && k <= |events|
    requires !LateBy(run, events, job, k, p)
    ensures OnCourse(run[k], job.catalog, job.since, p)
  {
    hide Sane, Valid, Positive, Fresh, Step, OnCourse, WritesLate;
    if k == 0 {
      StartOnCourse(run[0].state, job, p);
    } else {
      RunOnCourse(run, events, job, k - 1, p);
      RunIsSane(run, events, job, k - 1);
      assert !WritesLate(run[k - 1], events[k - 1], job.since, p);
      StepOnCourse(run[k - 1], events[k - 1], run[k], job, p);
    }
  }

  /** A run from a state an import may start in to the end of the import. */
  ghost predicate WholeRun(run: seq<Moment>, events: seq<Event>, job: Job) {
    IsImportRun(run, events, job) && Starts(run[0].state, job) && run[|events|].phase.Over?
  }

  ghost predicate AllLateSettled(run: seq<Moment>, events: seq<Event>, job: Job)
    requires |events| < |run|
  {
    forall p | LateBy(run, events, job, |events|, p) :: Settled(run[|events|].state, job.catalog, p)
  }

  ghost predicate AllLateUpToDate(run: seq<Moment>, events: seq<Event>, job: Job)
    requires |events| < |run|
  {
    forall p | LateBy(run, events, job, |events|, p) :: UpToDateIfPopulated(run[|events|].state, job.catalog, p)
  }

  ghost predicate AllSettled(s: State, c: Catalog) {
    forall p :: Settled(s, c, p)
  }

  lemma RecomputeIsSettled(s: State, c: Catalog)
    ensures IsRecompute(s.content, c, s.layer2.Get(c)) <==> AllSettled(s, c)
  {
    hide UpToDate, Populated;
    var l2 := s.layer2.Get(c);
    if AllSettled(s, c) {
      forall p ensures p in l2 <==> p in Populated(s.content, c) {
        assert Settled(s, c, p);
        assert UpToDate(s.content, l2, c, p) ==> p in l2 by { HasRow(s.content, l2, c, p); }
      }
      forall p | p in l2 ensures UpToDate(s.content, l2, c, p) {
        assert Settled(s, c, p);
      }
    }
  }

  /** However writers interleave, an import ends in the from-scratch result iff each PGC written late is settled. */
  lemma ExactIffLateSettled(run: seq<Moment>, events: seq<Event>, job: Job)
    requires WholeRun(run, events, job)
    ensures var end := run[|events|].state;
            IsRecompute(end.content, job.catalog, end.layer2.Get(job.catalog)) <==> AllLateSettled(run, events, job)
  {
    hide IsRecompute, Settled, LateBy, Step, Starts;
    var end := run[|events|].state;
    RecomputeIsSettled(end, job.catalog);
    forall p | !LateBy(run, events, job, |events|, p) ensures Settled(end, job.catalog, p) {
      RunOnCourse(run, events, job, |events|, p);
    }
  }

  ghost predicate NoLateWrite(run: seq<Moment>, events: seq<Event>, job: Job)
    requires |events| <= |run|
  {
    forall i, p | 0 <= i < |events| :: !WritesLate(run[i], events[i], job.since, p)
  }

  /**
   * Writers that began after the last import, stay beyond the cursor and the page in hand, and hold off after the last
   * read, do no harm.
   */
  lemma InterleavedImportIsExact(run: seq<Moment>, events: seq<Event>, job: Job)
    requires WholeRun(run, events, job) && NoLateWrite(run, events, job)
    ensures var end := run[|events|].state; IsRecompute(end.content, job.catalog, end.layer2.Get(job.catalog))
  {
    hide WritesLate, WholeRun, IsRecompute;
    ExactIffLateSettled(run, events, job);
  }

  // ---- What a finished import leaves fresh ----

  lemma EndStep(m: Moment, e: Event, n: Moment, job: Job)
    requires Step(m, e, n, job) && n.phase.Over? && Valid(m.state)
    ensures forall p | p in n.state.pgcs :: n.state.pgcs[p] < n.state.lastUpdate.Get(job.catalog)
  {}

  /** The watermark voids every mark: from then on the row alone decides. */
  lemma EndFresh(run: seq<Moment>, events: seq<Event>, job: Job, p: Pgc)
    requires WholeRun(run, events, job)
    ensures Fresh(run[|events|].state, job.catalog, p) <==> UpToDateIfPopulated(run[|events|].state, job.catalog, p)
  {
    hide Valid, Step, UpToDate, Populated, Starts;
    var k := |events| - 1;
    RunIsSane(run, events, job, k);
    EndStep(run[k], events[k], run[k + 1], job);
  }

  /** The catalog is fresh at the end iff each PGC that was written late, and still has rows, is up to date all the same. */
  lemma FreshIffLateUpToDate(run: seq<Moment>, events: seq<Event>, job: Job)
    requires WholeRun(run, events, job)
    ensures FreshCatalog(run[|events|].state, job.catalog) <==> AllLateUpToDate(run, events, job)
  {
    hide Fresh, UpToDateIfPopulated, LateBy, Step, Starts;
    var end := run[|events|].state;
    forall p ensures Fresh(end, job.catalog, p) <==> UpToDateIfPopulated(end, job.catalog, p) {
      EndFresh(run, events, job, p);
    }
    forall p | !LateBy(run, events, job, |events|, p) ensures UpToDateIfPopulated(end, job.catalog, p) {
      TimelyIsUpToDate(run, events, job, p);
    }
  }

  lemma TimelyIsUpToDate(run: seq<Moment>, events: seq<Event>, job: Job, p: Pgc)
    requires WholeRun(run, events, job) && !LateBy(run, events, job, |events|, p)
    ensures UpToDateIfPopulated(run[|events|].state, job.catalog, p)
  {
    hide LateBy, IsImportRun, Starts;
    RunOnCourse(run, events, job, |events|, p);
  }

  ghost predicate InSomePage(run: seq<Moment>, p: Pgc) {
    exists i :: 0 <= i < |run| && run[i].phase.Saving? && p in run[i].phase.page
  }

  lemma StepAddsNone(m: Moment, e: Event, n: Moment, job: Job, p: Pgc)
    requires Sane(m, job.since) && Step(m, e, n, job) && !(m.phase.Saving? && p in m.phase.page)
    requires p !in m.state.layer2.Get(job.catalog)
    ensures p !in n.state.layer2.Get(job.catalog)
  {
    hide Valid, SavesRows;
    if e.SavePage? {
      SavedRow(m.state, n.state, job.catalog, m.phase.rows, p);
    }
  }

  lemma {:induction false} UnreadHasNoRow(run: seq<Moment>, events: seq<Event>, job: Job, k: nat, p: Pgc)
    requires IsImportRun(run, events, job) && Starts(run[0].state, job) && k <= |events|
    requires p !in run[0].state.layer2.Get(job.catalog) && !InSomePage(run, p)
    ensures p !in run[k].state.layer2.Get(job.catalog)
  {
    hide Sane, Starts, Step;
    if k > 0 {
      UnreadHasNoRow(run, events, job, k - 1, p);
      RunIsSane(run, events, job, k - 1);
      StepAddsNone(run[k - 1], events[k - 1], run[k], job, p);
    }
  }

  /** A PGC new to layer 2 that no page held, as one minted after the last read, has no row at the end and no mark. */
  lemma UnreadIsLost(run: seq<Moment>, events: seq<Event>, job: Job, p: Pgc)
    requires WholeRun(run, events, job) && !InSomePage(run, p)
    requires p !in run[0].state.layer2.Get(job.catalog)
    requires p in Populated(run[|events|].state.content, job.catalog)
    ensures !Fresh(run[|events|].state, job.catalog, p)
  {
    hide Fresh, InSomePage, Populated, Step, Starts;
    UnreadHasNoRow(run, events, job, |events|, p);
    EndFresh(run, events, job, p);
    var end := run[|events|].state;
    HasRow(end.content, end.layer2.Get(job.catalog), job.catalog, p);
  }

  // ---- Without writers ----

  predicate Quiet(e: Event) {
    !e.Write? && !e.Reclassify?
  }

  ghost predicate SavedUpTo(st: State, job: Job, done: set<Pgc>, t: State) {
    t == st.(layer2 := t.layer2) && SavedSoFar(st, job.catalog, false, done, t.layer2)
  }

  ghost predicate SavedBefore(st: State, job: Job, page: seq<Pgc>, t: State) {
    exists done :: SavedUpTo(st, job, done, t) && done + Elements(page) == Passed(st, job.catalog, job.since, LastOf(page))
  }

  function Whole(job: Job): Config {
    Config(job.catalog, job.limit, false, Some(job.since), true)
  }

  /** How far an import from `st` with no one else writing has come. */
  ghost predicate Alone(st: State, m: Moment, job: Job) {
    var Job(c, since, limit) := job;
    match m.phase
    case Reading(cursor) => cursor >= 0 && SavedUpTo(st, job, Passed(st, c, since, cursor), m.state)
    case Saving(page, rows) =>
      && page != [] && LastOf(page) >= 0 && StrictlyIncreasing(page) && IsBatch(st.content, c, page, rows)
      && SavedBefore(st, job, page, m.state)
    case Cleaning => SavedUpTo(st, job, ReadSet(st, Whole(job)), m.state)
    case Deleting(orphans) =>
      SavedUpTo(st, job, ReadSet(st, Whole(job)), m.state) && orphans == Removed(st, Whole(job))
    case Stamping =>
      m.state == WithLayer2(st, c, m.state.layer2.Get(c)) && Imported(st, Whole(job), m.state.layer2.Get(c))
    case Over => IsImport(st, Whole(job), m.state)
  }

  lemma AloneReads(st: State, m: Moment, n: Moment, job: Job)
    requires Alone(st, m, job) && Step(m, ReadPage, n, job)
    ensures Alone(st, n, job)
  {
    hide IsBatch, Passed, SavedSoFar, StrictlyIncreasing, Page;
    var Job(c, since, limit) := job;
    var cursor := m.phase.cursor;
    PageFrame(st, m.state.layer2, c, since, limit, cursor);
    PageEligible(st, c, since, limit, cursor);
    PageStep(st, c, since, limit, cursor);
    PassPage(st, c, since, limit, cursor);
    assert SavedUpTo(st, job, Passed(st, c, since, cursor), n.state);
  }

  lemma AloneSaves(st: State, m: Moment, n: Moment, job: Job)
    requires Alone(st, m, job) && Step(m, SavePage, n, job)
    ensures Alone(st, n, job)
  {
    hide IsBatch, Passed, StrictlyIncreasing, Refreshed, IsAggregate;
    var Job(c, since, limit) := job;
    var Saving(page, rows) := m.phase;
    var done :| SavedUpTo(st, job, done, m.state) && done + Elements(page) == Passed(st, c, since, LastOf(page));
    var l2 := m.state.layer2.Get(c);
    var agg: seq<Saved> :| IsAggregate(c, rows, agg) && n.state == WithLayer2(m.state, c, SaveRows(l2, agg));
    BatchRefreshes(st.content, c, page, rows, agg, st.layer2.Get(c), done, l2);
    var saved := SaveRows(l2, agg);
    SetTwice(st.layer2, c, l2, saved);
    assert n.state == WithLayer2(m.state, c, saved);
    assert SavedUpTo(st, job, done + Elements(page), n.state);
  }

  lemma AloneStops(st: State, m: Moment, n: Moment, job: Job)
    requires job.limit >= 1 && Alone(st, m, job) && Step(m, ReadNone, n, job)
    ensures Alone(st, n, job)
  {
    hide Page, SavedSoFar;
    PageFrame(st, m.state.layer2, job.catalog, job.since, job.limit, m.phase.cursor);
    PassedAll(st, job.catalog, job.since, job.limit, m.phase.cursor);
  }

  lemma AloneFinds(st: State, m: Moment, n: Moment, job: Job)
    requires Alone(st, m, job) && Step(m, FindOrphans, n, job)
    ensures Alone(st, n, job)
  {
    OrphansAfterSaving(st, Whole(job), m.state.layer2);
  }

  lemma AloneDeletes(st: State, m: Moment, n: Moment, job: Job)
    requires Alone(st, m, job) && Step(m, DeleteOrphans, n, job)
    ensures Alone(st, n, job)
  {
    hide Removed, ReadSet, Imported, Refreshed;
    var c, l2 := job.catalog, m.state.layer2.Get(job.catalog);
    RemovingImports(st, Whole(job), l2);
    SetTwice(st.layer2, c, l2, l2 - Removed(st, Whole(job)));
  }

  lemma AloneSteps(st: State, m: Moment, e: Event, n: Moment, job: Job)
    requires job.limit >= 1 && Alone(st, m, job) && Step(m, e, n, job) && Quiet(e)
    ensures Alone(st, n, job)
  {
    hide SavedBefore, SavedUpTo, Imported, IsBatch;
    match e
    case ReadPage => AloneReads(st, m, n, job);
    case SavePage => AloneSaves(st, m, n, job);
    case ReadNone => AloneStops(st, m, n, job);
    case FindOrphans => AloneFinds(st, m, n, job);
    case DeleteOrphans => AloneDeletes(st, m, n, job);
    case SetWatermark => assert n.state.layer2 == m.state.layer2;
  }

  lemma AloneStarts(st: State, job: Job)
    ensures Alone(st, Moment(st, Reading(0)), job)
  {
    SetSame(st.layer2, job.catalog);
    assert Passed(st, job.catalog, job.since, 0) == {};
  }

  lemma {:induction false} RunAlone(run: seq<Moment>, events: seq<Event>, job: Job, k: nat)
    requires job.limit >= 1 && IsImportRun(run, events, job) && k <= |events|
    requires forall i | 0 <= i < |events| :: Quiet(events[i])
    ensures Alone(run[0].state, run[k], job)
  {
    hide Alone, Step;
    if k == 0 {
      AloneStarts(run[0].state, job);
    } else {
      RunAlone(run, events, job, k - 1);
      AloneSteps(run[0].state, run[k - 1], events[k - 1], run[k], job);
    }
  }

  /** Without writers the statements come to the import that `Import.Run` is proved to be. */
  lemma QuietRunIsImport(run: seq<Moment>, events: seq<Event>, job: Job)
    requires job.limit >= 1 && IsImportRun(run, events, job) && run[|events|].phase.Over?
    requires forall i | 0 <= i < |events| :: Quiet(events[i])
    ensures IsImport(run[0].state, Whole(job), run[|events|].state)
  {
    hide IsImportRun, IsImport;
    RunAlone(run, events, job, |events|);
  }

  /** A turn of the import's loop is a read and a save of this machine, or the read that finds nothing. */
  lemma TurnIsStatements(s: State, t: State, job: Job, cursor: int, next: int)
    requires Turn(s, t, job.catalog, job.since, job.limit, false, cursor, next)
    ensures if Page(s, job.catalog, job.since, job.limit, cursor) == []
      then t == s && next == cursor && Step(Moment(s, Reading(cursor)), ReadNone, Moment(s, Cleaning), job)
      else exists held: Phase ::
        && Step(Moment(s, Reading(cursor)), ReadPage, Moment(s, held), job)
        && Step(Moment(s, held), SavePage, Moment(t, Reading(next)), job)
  {
    hide Page, IsBatch, SavesRows;
    var Job(c, since, limit) := job;
    if Page(s, c, since, limit, cursor) != [] {
      var page: seq<Pgc>, rows: seq<Sample> :|
        ReadsPage(s, c, since, limit, cursor, page, rows) && SavesRows(s, t, c, rows) && next == page[|page| - 1].number;
      assert Step(Moment(s, Reading(cursor)), ReadPage, Moment(s, Saving(page, rows)), job);
      assert Step(Moment(s, Saving(page, rows)), SavePage, Moment(t, Reading(next)), job);
    }
  }
}

/** Histories in which transactions take time and imports are runs of statements with writers between them. */
module Chronicles {
  import opened Collections
  import opened Schema
  import opened Layers
  import opened Layer2
  import opened Writers
  import opened Freshness
  import opened InterleavedImport

  // ---- The other catalogs during an import ----

  /** The event costs the catalogs other than `c` nothing. */
  ghost predicate HarmlessBeside(m: Moment, e: Event, n: Moment, c: Catalog) {
    match e
    case Write(touched, begin) => forall d: Catalog | d != c :: MarkedInTime(n.state, touched, begin, d)
    case Reclassify(_) => forall d: Catalog | d != c :: UnmarkedAnswersIn(m.state, n.state.content, d)
    case _ => true
  }

  ghost predicate OthersInTime(run: seq<Moment>, events: seq<Event>, job: Job)
    requires |run| == |events| + 1
  {
    forall i | 0 <= i < |events| :: HarmlessBeside(run[i], events[i], run[i + 1], job.catalog)
  }

  lemma OtherTablesFresh(s: State, t: State, d: Catalog)
    requires t.content == s.content && t.pgcs == s.pgcs
    requires t.layer2.Get(d) == s.layer2.Get(d) && t.lastUpdate.Get(d) == s.lastUpdate.Get(d)
    requires FreshCatalog(s, d)
    ensures FreshCatalog(t, d)
  {
    hide UpToDate, Populated;
    forall p ensures Fresh(t, d, p) {
      assert Fresh(s, d, p);
    }
  }

  lemma StepBeside(m: Moment, e: Event, n: Moment, job: Job, d: Catalog)
    requires Sane(m, job.since) && Step(m, e, n, job) && d != job.catalog
    requires FreshCatalog(m.state, d) && HarmlessBeside(m, e, n, job.catalog)
    ensures FreshCatalog(n.state, d)
  {
    hide Valid, FreshCatalog, KeepsFrom, SavesRows, MarkedInTime, UnmarkedAnswersIn, SameButClasses, SameGroup,
      StrictlyIncreasing;
    match e
    case Write(touched, begin) => LateWriteFreshIff(m.state, n.state, touched, begin, d);
    case Reclassify(_) => ReclassifiedFreshIn(m.state, n.state, d);
    case SavePage =>
      SavedRow(m.state, n.state, job.catalog, m.phase.rows, m.phase.page[0]);
      OtherTablesFresh(m.state, n.state, d);
    case _ => OtherTablesFresh(m.state, n.state, d);
  }

  lemma StepPositive(m: Moment, e: Event, n: Moment, job: Job)
    requires Sane(m, job.since) && Step(m, e, n, job) && Positive(m.state)
    ensures Positive(n.state)
  {
    hide Valid, SavesRows, WritesFrom, SameButClasses, SameGroup;
    if e.SavePage? {
      SavedRow(m.state, n.state, job.catalog, m.phase.rows, m.phase.page[0]);
    }
  }

  lemma {:induction false} RunBeside(run: seq<Moment>, events: seq<Event>, job: Job, k: nat)
    requires IsImportRun(run, events, job) && Starts(run[0].state, job) && k <= |events| && OthersInTime(run, events, job)
    requires forall d: Catalog | d != job.catalog :: FreshCatalog(run[0].state, d)
    ensures Positive(run[k].state) && forall d: Catalog | d != job.catalog :: FreshCatalog(run[k].state, d)
  {
    hide Sane, Positive, FreshCatalog, Step, HarmlessBeside;
    if k == 0 {
      StartIsPositive(run[0].state, job);
    } else {
      RunBeside(run, events, job, k - 1);
      RunIsSane(run, events, job, k - 1);
      StepPositive(run[k - 1], events[k - 1], run[k], job);
      forall d: Catalog | d != job.catalog ensures FreshCatalog(run[k].state, d) {
        StepBeside(run[k - 1], events[k - 1], run[k], job, d);
      }
    }
  }

  lemma StartIsPositive(s: State, job: Job)
    requires Starts(s, job)
    ensures Positive(s)
  {}

  lemma GoodIsEach(s: State, c: Catalog)
    requires Valid(s) && Positive(s) && forall d: Catalog | d != c :: FreshCatalog(s, d)
    ensures Good(s) <==> FreshCatalog(s, c)
  {
    hide FreshCatalog, AllFresh, Valid, Positive;
    AllFreshIsEach(s);
  }

  /** An import with writers beside it leaves a good state good iff each PGC written late, and not empty, is right. */
  lemma RunEndsGoodIff(run: seq<Moment>, events: seq<Event>, job: Job)
    requires WholeRun(run, events, job) && Good(run[0].state) && OthersInTime(run, events, job)
    ensures Good(run[|events|].state) <==> AllLateUpToDate(run, events, job)
  {
    hide FreshCatalog, AllFresh, Step, Starts, Good, OthersInTime, Valid, Positive, AllLateUpToDate;
    GoodHasFresh(run[0].state);
    RunBeside(run, events, job, |events|);
    RunIsSane(run, events, job, |events|);
    GoodIsEach(run[|events|].state, job.catalog);
    FreshIffLateUpToDate(run, events, job);
  }

  lemma GoodHasFresh(s: State)
    requires Good(s)
    ensures Valid(s) && Positive(s) && forall d: Catalog :: FreshCatalog(s, d)
  {
    AllFreshIsEach(s);
  }

  lemma NoneLateUpToDate(run: seq<Moment>, events: seq<Event>, job: Job)
    requires |run| == |events| + 1 && NoLateWrite(run, events, job)
    ensures AllLateUpToDate(run, events, job)
  {
    hide WritesLate, UpToDateIfPopulated;
  }

  // ---- One commit ----

  /** The operation commits, with the stamps of a transaction that began at `begin`. */
  ghost predicate Commits(s: State, op: Op, begin: Time, done: State, t: State) {
    && Next(s, op, done)
    && if op.OpImport? then t == done else begin <= s.clock && t == Backdated(s, done, begin)
  }

  lemma PgcsKeptUndated(s: State, t: State, begin: Time)
    requires Valid(s) && t.pgcs == s.pgcs
    ensures Backdated(s, t, begin) == t
  {
    assert Backdated(s, t, begin).pgcs == t.pgcs;
  }

  /** A write, whenever its transaction began, keeps a good state good iff all its marks come in time. */
  lemma CommitGoodIff(s: State, op: Op, begin: Time, done: State, t: State) returns (touched: set<Pgc>)
    requires Good(s) && Legal(s, op) && Commits(s, op, begin, done, t) && !op.OpImport? && !Reclassifies(op)
    ensures Keeps(s, done, touched) && KeepsFrom(s, t, touched, begin)
    ensures Good(t) <==> forall c: Catalog :: MarkedInTime(t, touched, begin, c)
  {
    hide Valid, FreshCatalog, AllFresh, Keeps, KeepsFrom, MarkedInTime, Legal, Next;
    touched := WriterKeeps(s, op, done);
    BackdatedKeeps(s, done, touched, begin);
    KeptIsValid(s, t, touched, begin);
    AllFreshIsEach(s);
    AllFreshIsEach(t);
    forall c: Catalog ensures FreshCatalog(t, c) <==> MarkedInTime(t, touched, begin, c) {
      LateWriteFreshIff(s, t, touched, begin, c);
    }
  }

  lemma KeptIsValid(s: State, t: State, touched: set<Pgc>, begin: Time)
    requires KeepsFrom(s, t, touched, begin) && Positive(s)
    ensures Valid(t) && Positive(t) && t.lastUpdate == s.lastUpdate
  {}

  ghost predicate WritesInTime(s: State, t: State, touched: set<Pgc>, begin: Time) {
    KeepsFrom(s, t, touched, begin) && forall c: Catalog :: MarkedInTime(t, touched, begin, c)
  }

  lemma WritesInTimeGood(s: State, t: State, touched: set<Pgc>, begin: Time)
    requires Good(s) && WritesInTime(s, t, touched, begin)
    ensures Good(t)
  {
    hide Valid, FreshCatalog, AllFresh, KeepsFrom, MarkedInTime;
    KeptIsValid(s, t, touched, begin);
    AllFreshIsEach(s);
    AllFreshIsEach(t);
    forall c: Catalog ensures FreshCatalog(t, c) {
      LateWriteFreshIff(s, t, touched, begin, c);
    }
  }

  // ---- Chronicles ----

  /** A transaction of the service, or an import with whatever commits beside its statements. */
  datatype Chapter =
    | Commit(op: Op, begin: Time)
    | ImportBeside(run: seq<Moment>, events: seq<Event>, job: Job)

  ghost predicate Tells(s: State, chapter: Chapter, t: State) {
    match chapter
    case Commit(op, begin) => Legal(s, op) && exists done :: Commits(s, op, begin, done, t)
    case ImportBeside(run, events, job) =>
      && IsImportRun(run, events, job) && run[0].state == s && run[|events|] == Moment(t, Over)
      && job.limit >= 1 && job.since <= s.lastUpdate.Get(job.catalog)
      && OthersInTime(run, events, job)
  }

  /** No mark came too late, or what it was for is right all the same. */
  ghost predicate NothingLost(s: State, chapter: Chapter, t: State) {
    match chapter
    case Commit(op, begin) => op.OpImport? || Reclassifies(op) || exists touched :: WritesInTime(s, t, touched, begin)
    case ImportBeside(run, events, job) => |run| == |events| + 1 && AllLateUpToDate(run, events, job)
  }

  lemma CommitLosesNothingIff(s: State, op: Op, begin: Time, done: State, t: State)
    requires Good(s) && Legal(s, op) && Commits(s, op, begin, done, t)
    ensures Good(t) <==> NothingLost(s, Commit(op, begin), t)
  {
    hide Legal, Next, Good, Keeps, KeepsFrom, MarkedInTime;
    if op.OpImport? {
      StepKeepsGood(s, op, done);
    } else if Reclassifies(op) {
      GoodIsValid(s);
      ReclassifyPgcs(s, op, done);
      PgcsKeptUndated(s, done, begin);
      StepKeepsGood(s, op, done);
    } else {
      var touched := CommitGoodIff(s, op, begin, done, t);
      assert Good(t) ==> WritesInTime(s, t, touched, begin);
      if other :| WritesInTime(s, t, other, begin) {
        WritesInTimeGood(s, t, other, begin);
      }
    }
  }

  lemma GoodIsValid(s: State)
    requires Good(s)
    ensures Valid(s)
  {}

  lemma ReclassifyPgcs(s: State, op: Op, t: State)
    requires Valid(s) && Reclassifies(op) && Next(s, op, t)
    ensures t.pgcs == s.pgcs
  {
    hide SameButClasses, UnmarkedAnswers, Legal, Valid;
    ReclassifyParts(s, op, t);
  }

  lemma ImportStarts(s: State, job: Job)
    requires Good(s) && job.limit >= 1 && job.since <= s.lastUpdate.Get(job.catalog)
    ensures Starts(s, job)
  {
    hide Fresh, Valid, Positive;
  }

  /** A chapter keeps a good state good iff nothing is lost in it. */
  lemma ChapterGoodIff(s: State, chapter: Chapter, t: State)
    requires Good(s) && Tells(s, chapter, t)
    ensures Good(t) <==> NothingLost(s, chapter, t)
  {
    hide Good, Starts, Step, Legal, OthersInTime, AllLateUpToDate, WritesInTime;
    match chapter
    case Commit(op, begin) =>
      var done :| Commits(s, op, begin, done, t);
      CommitLosesNothingIff(s, op, begin, done, t);
    case ImportBeside(run, events, job) =>
      ImportStarts(s, job);
      RunEndsGoodIff(run, events, job);
  }

  ghost predicate IsChronicle(states: seq<State>, chapters: seq<Chapter>) {
    && |states| == |chapters| + 1
    && states[0] == Empty()
    && forall i | 0 <= i < |chapters| ::
         Tells(states[i], chapters[i], states[i + 1]) && NothingLost(states[i], chapters[i], states[i + 1])
  }

  /** Freshness over every chronicle. */
  lemma {:induction false} ChroniclesAreFresh(states: seq<State>, chapters: seq<Chapter>, i: nat)
    requires IsChronicle(states, chapters) && i < |states|
    ensures Good(states[i])
  {
    hide Tells, NothingLost, Good;
    if i == 0 {
      EmptyIsGood();
    } else {
      ChroniclesAreFresh(states, chapters, i - 1);
      ChapterGoodIff(states[i - 1], chapters[i - 1], states[i]);
    }
  }

  /** At any point of any chronicle an import with writers beside it is exact iff what was written late is settled. */
  lemma ChroniclesImportExactly(states: seq<State>, chapters: seq<Chapter>, i: nat)
    requires IsChronicle(states, chapters) && i < |chapters| && chapters[i].ImportBeside?
    ensures var ImportBeside(run, events, job) := chapters[i];
      && |run| == |events| + 1
      && (IsRecompute(states[i + 1].content, job.catalog, states[i + 1].layer2.Get(job.catalog)) <==>
          AllLateSettled(run, events, job))
  {
    hide Good, Starts, Step, OthersInTime, IsRecompute, AllLateUpToDate, AllLateSettled;
    ChroniclesAreFresh(states, chapters, i);
    var ImportBeside(run, events, job) := chapters[i];
    assert Tells(states[i], chapters[i], states[i + 1]);
    ImportStarts(states[i], job);
    ExactIffLateSettled(run, events, job);
  }

  // ---- Nothing is lost ----

  ghost predicate BeginsAfterWatermarks(s: State, begin: Time) {
    forall c: Catalog :: begin > s.lastUpdate.Get(c)
  }

  /** Nothing is lost by a transaction that begins after every watermark, nor by an import with no late write. */
  lemma InTimeLosesNothing(s: State, chapter: Chapter, t: State)
    requires Good(s) && Tells(s, chapter, t)
    requires match chapter
             case Commit(_, begin) => BeginsAfterWatermarks(s, begin)
             case ImportBeside(run, events, job) => |run| == |events| + 1 && NoLateWrite(run, events, job)
    ensures NothingLost(s, chapter, t)
  {
    hide Good, Legal, Next, Keeps, KeepsFrom, Step;
    match chapter
    case Commit(op, begin) =>
      var done :| Commits(s, op, begin, done, t);
      if !op.OpImport? && !Reclassifies(op) {
        var touched := CommitGoodIff(s, op, begin, done, t);
        GoodIsValid(s);
        KeptWatermarks(s, t, touched, begin);
        assert WritesInTime(s, t, touched, begin);
      }
    case ImportBeside(run, events, job) => NoneLateUpToDate(run, events, job);
  }

  lemma KeptWatermarks(s: State, t: State, touched: set<Pgc>, begin: Time)
    requires KeepsFrom(s, t, touched, begin)
    ensures t.lastUpdate == s.lastUpdate
  {}

  // ---- What the chronicles contain ----

  /** Every run of transactions that take no time is a chronicle. */
  lemma RunsAreChronicles(states: seq<State>, ops: seq<Op>) returns (chapters: seq<Chapter>)
    requires IsRun(states, ops)
    ensures IsChronicle(states, chapters) && |chapters| == |ops|
    ensures forall i | 0 <= i < |ops| :: chapters[i] == Commit(ops[i], states[i].clock)
  {
    hide Tells, NothingLost, Legal, Next;
    chapters := seq(|ops|, i requires 0 <= i < |ops| && |states| == |ops| + 1 => Commit(ops[i], states[i].clock));
    forall i | 0 <= i < |ops|
      ensures Tells(states[i], chapters[i], states[i + 1]) && NothingLost(states[i], chapters[i], states[i + 1])
    {
      RunsAreFresh(states, ops, i);
      AtOnce(states[i], ops[i], states[i + 1]);
    }
  }

  lemma AtOnce(s: State, op: Op, t: State)
    requires Good(s) && Legal(s, op) && Next(s, op, t)
    ensures Tells(s, Commit(op, s.clock), t) && NothingLost(s, Commit(op, s.clock), t)
  {
    hide Legal, Next, AllFresh, ValidContent, NothingLost;
    assert Backdated(s, t, s.clock).pgcs == t.pgcs;
    assert Commits(s, op, s.clock, t, t);
    StepKeepsGood(s, op, t);
    ChapterGoodIff(s, Commit(op, s.clock), t);
  }

  /** Every write of the service can come between two statements of an import. */
  lemma CommitIsEvent(m: Moment, op: Op, begin: Time, done: State, t: State, job: Job) returns (touched: set<Pgc>)
    requires Valid(m.state) && Legal(m.state, op) && Commits(m.state, op, begin, done, t) && !m.phase.Over?
    requires !op.OpImport? && !Reclassifies(op)
    ensures Step(m, Write(touched, begin), m.(state := t), job)
  {
    hide Valid, Legal, Next, Keeps, KeepsFrom;
    touched := WriterKeeps(m.state, op, done);
    BackdatedKeeps(m.state, done, touched, begin);
  }

  /** The PGCs of the weighed rows that change class. */
  ghost function ChangedBy(a: Content, b: Content): set<Pgc> {
    set c: Catalog, k |
      k in a.layer1.Get(c) && Weighed(a, c, k) && IsCompilation(a, k.record) != IsCompilation(b, k.record) ::
      a.records[k.record].pgc.value
  }

  lemma ReclassifyIsEvent(m: Moment, op: Op, t: State, job: Job)
    requires Valid(m.state) && Reclassifies(op) && Next(m.state, op, t) && !m.phase.Over?
    ensures Step(m, Reclassify(ChangedBy(m.state.content, t.content)), m.(state := t), job)
  {
    hide Valid, SameButClasses, UnmarkedAnswers, Legal, ValidContent, SameGroup, ChangedBy;
    ReclassifyParts(m.state, op, t);
    SamePgcsValid(m.state, t);
    forall c: Catalog, p | p !in ChangedBy(m.state.content, t.content) ensures SameGroup(m.state.content, t.content, c, p) {
      UnchangedBy(m.state.content, t.content, c, p);
    }
  }

  lemma UnchangedBy(a: Content, b: Content, c: Catalog, p: Pgc)
    requires SameButClasses(a, b) && p !in ChangedBy(a, b)
    ensures SameGroup(a, b, c, p)
  {
    assert forall r :: IsAssigned(a, r, p) <==> IsAssigned(b, r, p);
    assert GroupKeys(a, c, p) == GroupKeys(b, c, p);
    forall k | k in GroupKeys(a, c, p) ensures SampleOf(a, c, p, k) == SampleOf(b, c, p, k) {
      assert Measured(c) ==> Weighed(a, c, k);
    }
  }
}

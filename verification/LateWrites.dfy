/** Three runs of an import in which one write comes too late: the change is marked, and lost. */
module LateWrites {
  import opened Collections
  import opened Schema
  import opened Aggregation
  import opened Layers
  import opened Storage
  import opened Layer1
  import opened Layer2
  import opened Writers
  import opened Import
  import opened Freshness
  import opened Histories
  import opened InterleavedImport

  const ONE: Pgc := Pgc(1)
  const ONLY: Key := Key("r", "")
  const NOTHING: map<Pgc, Summary> := map[]
  const SAVED: map<Pgc, Summary> := map[ONE := Voted("G")]
  const RETYPE: seq<Input> := [Input("r", "", NatureRow("*"))]
  const HELD: Phase := Saving([ONE], [Sample(ONE, false, NatureRow("G"))])

  /** PGC 1 has a type in layer 1 and `l2` in layer 2. */
  function Galaxy(typeName: string, marked: Time, l2: map<Pgc, Summary>, imported: Time, clock: Time): State {
    State(
      Content(TABLES, TwoRecords().content.records, PerCatalog(map[], map[], map[], map[ONLY := NatureRow(typeName)])),
      map[], map[ONE := marked], 2, PerCatalog(map[], map[], map[], l2), PerCatalog(0, 0, 0, imported), clock)
  }

  lemma GalaxyGroup(s: State, typeName: string)
    requires s.content == Galaxy(typeName, 0, NOTHING, 0, 0).content
    ensures GroupKeys(s.content, Nature, ONE) == {ONLY} && s.content.layer1.Get(Nature) == map[ONLY := NatureRow(typeName)]
    ensures GroupRows(s.content, Nature, ONE) == [Sample(ONE, false, NatureRow(typeName))]
    ensures Populated(s.content, Nature) == {ONE}
  {
    GroupOfOne(s.content, Nature, ONE, ONLY);
    OneRowGroup(s.content, Nature, ONE, ONLY);
  }

  lemma GalaxyValid(typeName: string, marked: Time, l2: map<Pgc, Summary>, imported: Time, clock: Time)
    requires marked < clock && imported < clock && clock > 0
    ensures Valid(Galaxy(typeName, marked, l2, imported, clock))
  {
    var st := Galaxy(typeName, marked, l2, imported, clock);
    forall c: Catalog ensures ValidTable(c, st.content.layer1.Get(c), st.content.records) {
      if c.Nature? {
        assert st.content.layer1.Get(c) == map[ONLY := NatureRow(typeName)];
      }
    }
  }

  // ---- The statements ----

  lemma OneSelected(x: Sample)
    ensures Select([x], x.pgc) == [x] && PgcsOf([x]) == {x.pgc} && Ascending({x.pgc}) == [x.pgc]
  {
    assert [x][1..] == [];
    assert x in [x];
    AscendingUnique([x.pgc], {x.pgc});
  }

  lemma ReadsOne(s: State, job: Job)
    requires s.content == Galaxy("G", 0, NOTHING, 0, 0).content && s.pgcs.Keys == {ONE}
    requires job.catalog == Nature && job.limit >= 1 && s.pgcs[ONE] > job.since
    ensures Step(Moment(s, Reading(0)), ReadPage, Moment(s, HELD), job)
  {
    hide GroupRows, Populated, IsBatch;
    GalaxyGroup(s, "G");
    OneSelected(Sample(ONE, false, NatureRow("G")));
    BatchOfOne(s.content, Nature, ONE, HELD.rows);
    assert Eligible(s, Nature, job.since, 0) == {ONE};
    assert Page(s, Nature, job.since, job.limit, 0) == [ONE];
  }

  lemma SavesOne(s: State, job: Job)
    requires job.catalog == Nature
    ensures var t := WithLayer2(s, Nature, s.layer2.Get(Nature)[ONE := Voted("G")]);
      Step(Moment(s, HELD), SavePage, Moment(t, Reading(1)), job)
  {
    hide PgcsOf, Select, IsMajority, Ascending;
    var x := Sample(ONE, false, NatureRow("G"));
    var agg := [Saved(ONE, Voted("G"))];
    OneSelected(x);
    OneVote(x, "G");
    assert agg[..0] == [];
    assert IsAggregate(Nature, [x], agg);
    assert SaveRows(s.layer2.Get(Nature), agg) == s.layer2.Get(Nature)[ONE := Voted("G")];
  }

  lemma FindsNoMore(s: State, cursor: int, job: Job)
    requires job.catalog == Nature && s.pgcs.Keys == {ONE}
    requires cursor >= 1 || s.pgcs[ONE] <= job.since
    ensures Step(Moment(s, Reading(cursor)), ReadNone, Moment(s, Cleaning), job)
  {
    assert Eligible(s, Nature, job.since, cursor) == {};
  }

  /** The record of PGC 1 turns out to be a star, and the save marks it. */
  lemma Retyped(phase: Phase, marked: Time, l2: map<Pgc, Summary>, imported: Time, clock: Time, job: Job)
    requires marked < clock && imported < clock && clock > 0 && !phase.Over?
    ensures var s, t := Galaxy("G", marked, l2, imported, clock), Galaxy("*", clock, l2, imported, clock + 1);
      && SaveStructured(s, Nature, RETYPE, true) == (t, true)
      && Step(Moment(s, phase), Write({ONE}, clock), Moment(t, phase), job)
  {
    hide Keeps, KeepsFrom, Valid, Touched, PgcsOfRecords;
    var s := Galaxy("G", marked, l2, imported, clock);
    GalaxyValid("G", marked, l2, imported, clock);
    assert RETYPE[..0] == [];
    assert UpsertRows(Nature, s.content.layer1.Get(Nature), RETYPE, true) == map[ONLY := NatureRow("*")];
    assert RecordIds(RETYPE) == {"r"};
    PgcsOfEither(s.content, RecordIds(RETYPE));
    TouchOne(s.pgcs, clock);
    SaveKeeps(s, Nature, RETYPE, true);
    KeepsAtOnce(s, Galaxy("*", clock, l2, imported, clock + 1), {ONE});
  }

  lemma NoOrphans(s: State)
    requires s.content == Galaxy("*", 0, NOTHING, 0, 0).content && s.layer2.Get(Nature) == SAVED
    ensures Orphans(s, Nature) == {} && SAVED - {} == SAVED && WithLayer2(s, Nature, SAVED) == s
  {
    GalaxyGroup(s, "*");
    SetSame(s.layer2, Nature);
  }

  /** From the last read on nothing happens but the last three statements. */
  lemma Finishes(s: State, t: State, job: Job)
    requires s.content == Galaxy("*", 0, NOTHING, 0, 0).content && s.layer2.Get(Nature) == SAVED && job.catalog == Nature
    requires t == s.(lastUpdate := s.lastUpdate.Set(Nature, s.clock), clock := s.clock + 1)
    ensures Step(Moment(s, Cleaning), FindOrphans, Moment(s, Deleting({})), job)
    ensures Step(Moment(s, Deleting({})), DeleteOrphans, Moment(s, Stamping), job)
    ensures Step(Moment(s, Stamping), SetWatermark, Moment(t, Over), job)
  {
    hide Orphans;
    NoOrphans(s);
  }

  /** A star that layer 2 has as a galaxy, with no mark after the watermark. */
  lemma Stale(s: State)
    requires s.content == Galaxy("*", 0, NOTHING, 0, 0).content && s.layer2.Get(Nature) == SAVED
    requires s.pgcs.Keys == {ONE} && s.pgcs[ONE] <= s.lastUpdate.Get(Nature)
    ensures !Fresh(s, Nature, ONE)
  {
    hide GroupRows, Populated;
    GalaxyGroup(s, "*");
    OneVote(Sample(ONE, false, NatureRow("*")), "G");
  }

  // ---- The runs ----

  const FROM_START: Job := Job(Nature, 0, 100)
  const FROM_THREE: Job := Job(Nature, 3, 100)

  lemma MayStart(s: State, job: Job)
    requires Reachable(s) && job.limit >= 1 && job.since == s.lastUpdate.Get(job.catalog)
    ensures Starts(s, job)
  {
    ReachableIsGood(s);
  }

  lemma TypedIsGalaxy()
    ensures Typed() == Galaxy("G", 2, NOTHING, 0, 3)
    ensures Reachable(Galaxy("G", 2, NOTHING, 0, 3))
  {
    TypedReachable();
  }

  /** The write falls between the read of the page and its save: PGC 1 is beyond the cursor, and yet it is lost. */
  lemma InFlightWriteIsLost() returns (run: seq<Moment>, events: seq<Event>)
    ensures WholeRun(run, events, FROM_START) && Reachable(run[0].state)
    ensures events == [ReadPage, Write({ONE}, 3), SavePage, ReadNone, FindOrphans, DeleteOrphans, SetWatermark]
    ensures run[2].state == SaveStructured(run[1].state, Nature, RETYPE, true).0 && run[0].phase == Reading(0)
    ensures !Fresh(run[7].state, Nature, ONE)
  {
    hide Step, Starts, Reachable, Fresh, SaveStructured;
    var s, t := Galaxy("G", 2, NOTHING, 0, 3), Galaxy("*", 3, NOTHING, 0, 4);
    var u, end := Galaxy("*", 3, SAVED, 0, 4), Galaxy("*", 3, SAVED, 4, 5);
    run := [Moment(s, Reading(0)), Moment(s, HELD), Moment(t, HELD), Moment(u, Reading(1)), Moment(u, Cleaning),
            Moment(u, Deleting({})), Moment(u, Stamping), Moment(end, Over)];
    events := [ReadPage, Write({ONE}, 3), SavePage, ReadNone, FindOrphans, DeleteOrphans, SetWatermark];
    TypedIsGalaxy();
    MayStart(s, FROM_START);
    ReadsOne(s, FROM_START);
    Retyped(HELD, 2, NOTHING, 0, 3, FROM_START);
    SavesOne(t, FROM_START);
    assert NOTHING[ONE := Voted("G")] == SAVED;
    FindsNoMore(u, 1, FROM_START);
    Finishes(u, end, FROM_START);
    Stale(end);
  }

  /** The write falls behind the cursor. */
  lemma WriteBehindIsLost() returns (run: seq<Moment>, events: seq<Event>)
    ensures WholeRun(run, events, FROM_START) && Reachable(run[0].state)
    ensures events == [ReadPage, SavePage, Write({ONE}, 3), ReadNone, FindOrphans, DeleteOrphans, SetWatermark]
    ensures run[3].state == SaveStructured(run[2].state, Nature, RETYPE, true).0 && run[2].phase == Reading(1)
    ensures !Fresh(run[7].state, Nature, ONE)
  {
    hide Step, Starts, Reachable, Fresh, SaveStructured;
    var s, t := Galaxy("G", 2, NOTHING, 0, 3), Galaxy("G", 2, SAVED, 0, 3);
    var u, end := Galaxy("*", 3, SAVED, 0, 4), Galaxy("*", 3, SAVED, 4, 5);
    run := [Moment(s, Reading(0)), Moment(s, HELD), Moment(t, Reading(1)), Moment(u, Reading(1)), Moment(u, Cleaning),
            Moment(u, Deleting({})), Moment(u, Stamping), Moment(end, Over)];
    events := [ReadPage, SavePage, Write({ONE}, 3), ReadNone, FindOrphans, DeleteOrphans, SetWatermark];
    TypedIsGalaxy();
    MayStart(s, FROM_START);
    ReadsOne(s, FROM_START);
    SavesOne(s, FROM_START);
    assert NOTHING[ONE := Voted("G")] == SAVED;
    Retyped(Reading(1), 2, SAVED, 0, 3, FROM_START);
    FindsNoMore(u, 1, FROM_START);
    Finishes(u, end, FROM_START);
    Stale(end);
  }

  lemma ImportedReachable()
    ensures Reachable(Galaxy("G", 2, SAVED, 3, 4))
  {
    hide Reachable, Legal, Next;
    var s := Galaxy("G", 2, NOTHING, 0, 3);
    TypedIsGalaxy();
    GalaxyGroup(s, "G");
    ImportOne(s, Nature, ONE, ONLY);
    ReachOn(s, OpImport(Config(Nature, 100, false, None, true)), Galaxy("G", 2, SAVED, 3, 4));
  }

  /** The write falls between the read that finds nothing and the watermark; the cursor has passed no PGC at all. */
  lemma WriteAfterLastReadIsLost() returns (run: seq<Moment>, events: seq<Event>)
    ensures WholeRun(run, events, FROM_THREE) && Reachable(run[0].state)
    ensures events == [ReadNone, Write({ONE}, 4), FindOrphans, DeleteOrphans, SetWatermark]
    ensures run[2].state == SaveStructured(run[1].state, Nature, RETYPE, true).0
    ensures !Fresh(run[5].state, Nature, ONE)
  {
    hide Step, Starts, Reachable, Fresh, SaveStructured;
    var s, u, end := Galaxy("G", 2, SAVED, 3, 4), Galaxy("*", 4, SAVED, 3, 5), Galaxy("*", 4, SAVED, 5, 6);
    run := [Moment(s, Reading(0)), Moment(s, Cleaning), Moment(u, Cleaning), Moment(u, Deleting({})), Moment(u, Stamping),
            Moment(end, Over)];
    events := [ReadNone, Write({ONE}, 4), FindOrphans, DeleteOrphans, SetWatermark];
    ImportedReachable();
    MayStart(s, FROM_THREE);
    FindsNoMore(s, 0, FROM_THREE);
    Retyped(Cleaning, 2, SAVED, 3, 4, FROM_THREE);
    Finishes(u, end, FROM_THREE);
    Stale(end);
  }

  // ---- A long transaction ----

  /**
   * No import is running when the save commits, but one has ended since its transaction began: the mark is older than
   * the watermark, and no import will see it.
   */
  lemma LongTransactionIsLost()
    ensures var s := Galaxy("G", 2, SAVED, 3, 4);
      && Reachable(s) && !Fresh(Backdated(s, SaveStructured(s, Nature, RETYPE, true).0, 3), Nature, ONE)
  {
    hide Step, Reachable, Fresh, SaveStructured;
    var s, t := Galaxy("G", 2, SAVED, 3, 4), Galaxy("*", 3, SAVED, 3, 5);
    ImportedReachable();
    Retyped(Cleaning, 2, SAVED, 3, 4, FROM_THREE);
    assert Backdated(s, Galaxy("*", 4, SAVED, 3, 5), 3) == t;
    Stale(t);
  }
}

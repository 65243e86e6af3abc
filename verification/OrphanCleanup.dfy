/** The standalone orphan cleanup: it deletes every catalog's orphans from every catalog. */
module OrphanCleanup {
  import opened Collections
  import opened Schema
  import opened Layers
  import opened Storage
  import opened Records
  import opened Layer1
  import opened Layer2
  import opened Import
  import opened Freshness
  import opened Histories

  const CATALOGS: seq<Catalog> := [Icrs, Designation, Redshift, Nature]

  function OrphansOf(st: State, catalogs: seq<Catalog>): set<Pgc> {
    if catalogs == [] then {} else OrphansOf(st, catalogs[..|catalogs| - 1]) + Orphans(st, catalogs[|catalogs| - 1])
  }

  function AllOrphans(st: State): set<Pgc> {
    OrphansOf(st, CATALOGS)
  }

  function OrphanCount(st: State, catalogs: seq<Catalog>): nat {
    if catalogs == [] then 0 else OrphanCount(st, catalogs[..|catalogs| - 1]) + |Orphans(st, catalogs[|catalogs| - 1])|
  }

  function Without(l2: PerCatalog<map<Pgc, Summary>>, pgcs: set<Pgc>): PerCatalog<map<Pgc, Summary>> {
    PerCatalog(l2.designation - pgcs, l2.icrs - pgcs, l2.redshift - pgcs, l2.nature - pgcs)
  }

  method ListOrphans(db: Database) returns (total: nat, orphaned: set<Pgc>)
    ensures total == OrphanCount(db.Snapshot(), CATALOGS) && orphaned == AllOrphans(db.Snapshot())
  {
    hide Orphans;
    total, orphaned := 0, {};
    for i := 0 to |CATALOGS|
      invariant total == OrphanCount(db.Snapshot(), CATALOGS[..i]) && orphaned == OrphansOf(db.Snapshot(), CATALOGS[..i])
    {
      assert CATALOGS[..i + 1][..i] == CATALOGS[..i];
      var orphans := GetOrphanedPgcs(db, CATALOGS[i]);
      total, orphaned := total + |orphans|, orphaned + orphans;
    }
    assert CATALOGS[..|CATALOGS|] == CATALOGS;
  }

  method CleanUp(db: Database, write: bool) returns (total: nat)
    modifies db`layer2
    ensures total == OrphanCount(old(db.Snapshot()), CATALOGS)
    ensures db.layer2 == if write then Without(old(db.layer2), AllOrphans(old(db.Snapshot()))) else old(db.layer2)
  {
    hide OrphanCount, AllOrphans;
    var orphaned;
    total, orphaned := ListOrphans(db);
    if write {
      RemovePgcs(db, Icrs, orphaned);
      RemovePgcs(db, Designation, orphaned);
      RemovePgcs(db, Redshift, orphaned);
      RemovePgcs(db, Nature, orphaned);
    }
  }

  function AfterCleanUp(st: State): State {
    st.(layer2 := Without(st.layer2, AllOrphans(st)))
  }

  lemma WithoutGet(l2: PerCatalog<map<Pgc, Summary>>, pgcs: set<Pgc>, c: Catalog)
    ensures Without(l2, pgcs).Get(c) == l2.Get(c) - pgcs
  {
  }

  /** The orphans are those of the four catalogs, and one of two catalogs is counted twice. */
  lemma OrphansOfFour(st: State)
    ensures AllOrphans(st) == Orphans(st, Icrs) + Orphans(st, Designation) + Orphans(st, Redshift) + Orphans(st, Nature)
    ensures OrphanCount(st, CATALOGS) ==
      |Orphans(st, Icrs)| + |Orphans(st, Designation)| + |Orphans(st, Redshift)| + |Orphans(st, Nature)|
  {
    hide Orphans;
    OneMore(st, [], Icrs);
    OneMore(st, [Icrs], Designation);
    OneMore(st, [Icrs, Designation], Redshift);
    OneMore(st, [Icrs, Designation, Redshift], Nature);
    assert [] + [Icrs] == [Icrs] && [Icrs] + [Designation] == [Icrs, Designation];
    assert [Icrs, Designation] + [Redshift] == [Icrs, Designation, Redshift];
    assert [Icrs, Designation, Redshift] + [Nature] == CATALOGS;
  }

  lemma OneMore(st: State, catalogs: seq<Catalog>, c: Catalog)
    ensures OrphansOf(st, catalogs + [c]) == OrphansOf(st, catalogs) + Orphans(st, c)
    ensures OrphanCount(st, catalogs + [c]) == OrphanCount(st, catalogs) + |Orphans(st, c)|
  {
    hide Orphans;
    assert (catalogs + [c])[..|catalogs|] == catalogs;
  }

  lemma OrphansAreAll(st: State, c: Catalog)
    ensures Orphans(st, c) <= AllOrphans(st)
  {
    OrphansOfFour(st);
  }

  /** Each catalog loses just the orphans of every catalog, and so has none left; what is left is as it was. */
  lemma CleanUpRemovesOrphans(st: State, c: Catalog)
    ensures Orphans(AfterCleanUp(st), c) == {}
    ensures forall p :: p in AfterCleanUp(st).layer2.Get(c) <==>
      p in st.layer2.Get(c) && forall d: Catalog :: p !in Orphans(st, d)
    ensures forall p | p in AfterCleanUp(st).layer2.Get(c) :: AfterCleanUp(st).layer2.Get(c)[p] == st.layer2.Get(c)[p]
  {
    WithoutGet(st.layer2, AllOrphans(st), c);
    OrphansOfFour(st);
    forall p ensures p in AllOrphans(st) <==> exists d: Catalog :: p in Orphans(st, d) {
      if d: Catalog :| p in Orphans(st, d) {
        OrphansAreAll(st, d);
      }
    }
  }

  /** An orphan of one catalog that another catalog still has layer-1 rows for. */
  ghost predicate StillPopulated(st: State, c: Catalog, p: Pgc) {
    p in AllOrphans(st) && p in Populated(st.content, c)
  }

  /**
   * The cleanup keeps layer 2 fresh iff every orphan of one catalog that another still has rows for is marked there:
   * an unmarked one loses a correct row, and no import will look at it again.
   */
  lemma CleanUpKeepsFreshIff(st: State)
    requires AllFresh(st)
    ensures AllFresh(AfterCleanUp(st)) <==>
      forall c: Catalog, p | StillPopulated(st, c, p) :: p in st.pgcs && st.pgcs[p] > st.lastUpdate.Get(c)
  {
    var t := AfterCleanUp(st);
    if AllFresh(t) {
      forall c: Catalog, p | StillPopulated(st, c, p) ensures p in st.pgcs && st.pgcs[p] > st.lastUpdate.Get(c) {
        WithoutGet(st.layer2, AllOrphans(st), c);
        assert Fresh(t, c, p);
      }
    }
    if forall c: Catalog, p | StillPopulated(st, c, p) :: p in st.pgcs && st.pgcs[p] > st.lastUpdate.Get(c) {
      forall c: Catalog, p ensures Fresh(t, c, p) {
        WithoutGet(st.layer2, AllOrphans(st), c);
        assert Fresh(st, c, p);
        assert p in Populated(st.content, c) && p in AllOrphans(st) ==> StillPopulated(st, c, p);
      }
    }
  }

  // ---- A reachable state in which it does not ----

  const NAMES: map<Key, Row> := map[Key("s", "N 1") := DesignationRow("N 1")]

  /** "r" of PGC 1 has a type, "s" of `owner` a name. */
  function TypeAndName(owner: Pgc): Content {
    Content(TABLES, map["r" := Record("first", Some(Pgc(1))), "s" := Record("second", Some(owner))],
      PerCatalog(NAMES, map[], map[], TYPES))
  }

  function Named(): State {
    State(TypeAndName(Pgc(1)), map[], map[Pgc(1) := 3], 2, NO_SUMMARIES, PerCatalog(0, 0, 0, 0), 4)
  }

  function NameImported(): State {
    Named().(layer2 := PerCatalog(map[Pgc(1) := Voted("N 1")], map[], map[], map[]), lastUpdate := PerCatalog(4, 0, 0, 0),
             clock := 5)
  }

  /** "s" is found to be an object of its own. */
  function Parted(): State {
    NameImported().(content := TypeAndName(Pgc(2)), pgcs := map[Pgc(1) := 5, Pgc(2) := 5], nextPgc := 3, clock := 6)
  }

  /** The types are imported, the names not yet. */
  function TypeImported(): State {
    Parted().(layer2 := PerCatalog(map[Pgc(1) := Voted("N 1")], map[], map[], map[Pgc(1) := Voted("G")]),
              lastUpdate := PerCatalog(4, 0, 0, 6), clock := 7)
  }

  lemma NamedReachable()
    ensures Reachable(Named())
  {
    hide Reachable, Legal, Next;
    var y := Input("s", "", DesignationRow("N 1"));
    TypedReachable();
    SaveOne(Typed(), Designation, y);
    ReachOn(Typed(), OpSave(Designation, [y], true), Named());
  }

  lemma NameImportedReachable()
    ensures Reachable(NameImported())
  {
    hide Reachable, Legal, Next;
    NamedReachable();
    NameGroup(Pgc(1));
    ImportOne(Named(), Designation, Pgc(1), Key("s", "N 1"));
    ReachOn(Named(), OpImport(Config(Designation, 100, false, None, true)), NameImported());
  }

  lemma NameGroup(owner: Pgc)
    ensures GroupKeys(TypeAndName(owner), Designation, owner) == {Key("s", "N 1")}
    ensures GroupKeys(TypeAndName(owner), Nature, Pgc(1)) == {Key("r", "")}
  {}

  lemma PartedInserts()
    ensures var pgcs := [Entry("s", None)];
      && NewRecords(pgcs) == ["s"] && IsDict(pgcs)
      && MintedFor(["s"], 2) + Explicit(pgcs) == map["s" := Pgc(2)]
  {
    var pgcs := [Entry("s", None)];
    assert pgcs[..0] == [];
    assert NewRecords(pgcs) == ["s"] && Explicit(pgcs) == map[];
    assert MintedFor(["s"], 2) == map["s" := Pgc(2)];
  }

  lemma PartedWritten(m: State)
    requires m == NameImported().(pgcs := NameImported().pgcs[Pgc(2) := 5], nextPgc := 3)
    ensures WriteEntries(m, map["s" := Pgc(2)]).0 == Parted()
  {
    hide Touched, PreviousPgcs;
    var inserts := map["s" := Pgc(2)];
    assert "s" in inserts;
    ValuesOf(inserts, Pgc(2));
    PartedPrevious(m, inserts);
    assert WithPgcs(m.content.records, inserts) == Parted().content.records;
    PartedTouched();
  }

  lemma PartedNext()
    ensures Legal(NameImported(), OpUpsert([Entry("s", None)]))
    ensures Next(NameImported(), OpUpsert([Entry("s", None)]), Parted())
  {
    hide NewRecords, Explicit, MintedFor, Mint, FreeRun, WriteEntries;
    PartedInserts();
    SecondMint(NameImported());
    PartedWritten(NameImported().(pgcs := NameImported().pgcs[Pgc(2) := 5], nextPgc := 3));
  }

  lemma SecondMint(s: State)
    requires s.pgcs.Keys == {Pgc(1)} && s.nextPgc == 2
    ensures FreeRun(s.pgcs, 2, 1) == 1
    ensures Mint(s, 1) == s.(pgcs := s.pgcs[Pgc(2) := s.clock], nextPgc := 3)
  {
    assert MintedIds(2, 1) == {Pgc(2)};
    assert Mint(s, 1).pgcs == s.pgcs[Pgc(2) := s.clock];
  }

  lemma PartedPrevious(s: State, inserts: map<RecordId, Pgc>)
    requires s.content == TypeAndName(Pgc(1)) && inserts.Keys == {"s"}
    ensures PreviousPgcs(s, inserts) == {Pgc(1)}
  {
    assert "s" in inserts;
  }

  lemma PartedTouched()
    ensures Touched(map[Pgc(1) := 3][Pgc(2) := 5], {Pgc(1)} + {Pgc(2)}, 5) == map[Pgc(1) := 5, Pgc(2) := 5]
  {}

  lemma TypeImportedReachable()
    ensures Reachable(TypeImported())
  {
    hide Reachable, Legal, Next;
    NameImportedReachable();
    PartedNext();
    ReachOn(NameImported(), OpUpsert([Entry("s", None)]), Parted());
    NameGroup(Pgc(2));
    ImportOne(Parted(), Nature, Pgc(1), Key("r", ""));
    ReachOn(Parted(), OpImport(Config(Nature, 100, false, None, true)), TypeImported());
  }

  /** The cleanup deletes the type of PGC 1, right and unmarked, because its name has moved to another object. */
  lemma CleanUpLoses()
    ensures var s := TypeImported();
      && Reachable(s) && UpToDate(s.content, s.layer2.nature, Nature, Pgc(1))
      && !Fresh(AfterCleanUp(s), Nature, Pgc(1))
  {
    hide Reachable, UpToDate, AllOrphans, Populated;
    var s := TypeImported();
    TypeImportedReachable();
    NameGroup(Pgc(2));
    OneRowGroup(s.content, Nature, Pgc(1), Key("r", ""));
    OneRowGroup(s.content, Designation, Pgc(2), Key("s", "N 1"));
    OrphansAreAll(s, Designation);
    assert Pgc(1) in Orphans(s, Designation);
    WithoutGet(s.layer2, AllOrphans(s), Nature);
    HasRow(s.content, AfterCleanUp(s).layer2.nature, Nature, Pgc(1));
  }
}

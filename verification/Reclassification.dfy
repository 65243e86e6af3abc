/** Why the datatype of a table must not change under weighed records: nothing marks what that changes. */
module Reclassification {
  import opened Collections
  import opened Schema
  import opened Aggregation
  import opened Layers
  import opened Storage
  import opened Records
  import opened Layer1
  import opened Writers
  import opened Import
  import opened Freshness
  import opened Histories

  const VELOCITIES: map<Key, Row> :=
    map[Key("r", "best") := RedshiftRow(0.0, Some(1.0)), Key("s", "best") := RedshiftRow(10.0, Some(1.0))]

  /** PGC 1 has a velocity of 0 from a regular table and one of 10 from a table of datatype `second`. */
  function Velocities(second: DataType): Content {
    Content(map["first" := Regular, "second" := second], TwoRecords().content.records,
      PerCatalog(map[], map[], VELOCITIES, map[]))
  }

  /** Layer 2 has the mean of both, imported after the last mark. */
  function TwoVelocities(second: DataType): State {
    State(Velocities(second), map[], map[Pgc(1) := 2], 2,
      PerCatalog(map[], map[], map[Pgc(1) := Velocity(Estimate(5.0, 0.5))], map[]), PerCatalog(0, 0, 3, 0), 4)
  }

  function FirstSample(): Sample {
    Sample(Pgc(1), false, RedshiftRow(0.0, Some(1.0)))
  }

  function SecondSample(compilation: bool): Sample {
    Sample(Pgc(1), compilation, RedshiftRow(10.0, Some(1.0)))
  }

  lemma ListingOfTwo(k: Key, l: Key)
    requires k != l
    ensures multiset(Listing({k, l})) == multiset([k, l])
    ensures forall x :: x in Listing({k, l}) <==> x == k || x == l
  {
    ListingsAgree(Listing({k, l}), [k, l]);
  }

  lemma SamplesOfTwo(db: Content, c: Catalog, p: Pgc, k: Key, l: Key)
    requires k in db.layer1.Get(c) && l in db.layer1.Get(c)
    ensures AllStored(db, c, [k, l])
    ensures SamplesOf(db, c, p, [k, l]) == [SampleOf(db, c, p, k), SampleOf(db, c, p, l)]
  {
    hide SampleOf;
    assert [k, l][1..] == [l];
    SamplesOfOne(db, c, p, l);
  }

  /** What may be stored for a group of two rows. */
  lemma GroupOfTwo(db: Content, c: Catalog, p: Pgc, k: Key, l: Key, y: Summary)
    requires k != l && GroupKeys(db, c, p) == {k, l} && k in db.layer1.Get(c) && l in db.layer1.Get(c)
    ensures IsSummary(c, GroupRows(db, c, p), y) == IsSummary(c, [SampleOf(db, c, p, k), SampleOf(db, c, p, l)], y)
  {
    hide IsSummary, SampleOf, GroupKeys, SamplesOf, Listing;
    ListingOfTwo(k, l);
    SamplesOfTwo(db, c, p, k, l);
    SamplesIgnoreOrder(db, c, p, Listing({k, l}), [k, l]);
    SummaryIgnoresOrder(c, GroupRows(db, c, p), [SampleOf(db, c, p, k), SampleOf(db, c, p, l)], y);
  }

  lemma VelocitiesGroup(second: DataType)
    ensures var db, k, l := Velocities(second), Key("r", "best"), Key("s", "best");
      && k in db.layer1.Get(Redshift) && l in db.layer1.Get(Redshift) && GroupKeys(db, Redshift, Pgc(1)) == {k, l}
      && SampleOf(db, Redshift, Pgc(1), k) == FirstSample()
      && SampleOf(db, Redshift, Pgc(1), l) == SecondSample(second == Compilation)
      && Populated(db, Redshift) == {Pgc(1)}
  {
    var db := Velocities(second);
    assert Key("r", "best") in db.layer1.Get(Redshift);
    assert Pgc(1) in Populated(db, Redshift);
  }

  lemma MeanOfBoth()
    ensures IsSummary(Redshift, [FirstSample(), SecondSample(false)], Velocity(Estimate(5.0, 0.5)))
  {
    var s := [FirstSample(), SecondSample(false)];
    assert s[1..] == [SecondSample(false)] && s[1..][1..] == [];
    assert Exclude(s[1..], PrimaryPgcs(s)) == s[1..];
    assert ExcludeCompilationsWithPrimary(s) == s;
    assert WeightSum(s[1..], CzPart) == 1.0 && MomentSum(s[1..], CzPart) == 10.0;
    assert WeightedMean(s, CzPart) == Estimate(5.0, 0.5);
  }

  lemma MeanOfFirst()
    ensures !IsSummary(Redshift, [FirstSample(), SecondSample(true)], Velocity(Estimate(5.0, 0.5)))
  {
    var s := [FirstSample(), SecondSample(true)];
    assert s[1..] == [SecondSample(true)] && s[1..][1..] == [];
    assert s[0] in s;
    assert Pgc(1) in PrimaryPgcs(s);
    assert Exclude(s[1..], PrimaryPgcs(s)) == [];
    var kept := ExcludeCompilationsWithPrimary(s);
    assert kept == [FirstSample()] && kept[1..] == [];
    assert MomentSum(kept, CzPart) == 0.0 && WeightSum(kept, CzPart) == 1.0;
  }

  /** The mean of both is right for the group just if the second table is not one of compilations. */
  lemma MeanIsRightIff(second: DataType)
    ensures UpToDate(Velocities(second), map[Pgc(1) := Velocity(Estimate(5.0, 0.5))], Redshift, Pgc(1))
      <==> second != Compilation
  {
    hide IsSummary, GroupRows, SampleOf, GroupKeys;
    VelocitiesGroup(second);
    GroupOfTwo(Velocities(second), Redshift, Pgc(1), Key("r", "best"), Key("s", "best"), Velocity(Estimate(5.0, 0.5)));
    MeanOfBoth();
    MeanOfFirst();
  }

  lemma StaleIff(second: DataType)
    ensures Fresh(TwoVelocities(second), Redshift, Pgc(1)) <==> second != Compilation
  {
    hide UpToDate, Populated;
    MeanIsRightIff(second);
    VelocitiesGroup(second);
  }

  // ---- How the service gets there ----

  function BothVelocities(): seq<Input> {
    [Input("r", "best", RedshiftRow(0.0, Some(1.0))), Input("s", "best", RedshiftRow(10.0, Some(1.0)))]
  }

  lemma VelocitiesSaved()
    ensures var s := TwoRecords();
      && Legal(s, OpSave(Redshift, BothVelocities(), true))
      && Next(s, OpSave(Redshift, BothVelocities(), true), SavedState())
  {
    hide Touched, PgcsOfRecords;
    var s, data := TwoRecords(), BothVelocities();
    assert data[..1] == [data[0]] && data[..1][..0] == [];
    assert UpsertRows(Redshift, map[], data[..1], true) == map[Key("r", "best") := RedshiftRow(0.0, Some(1.0))];
    assert UpsertRows(Redshift, map[], data, true) == VELOCITIES;
    assert data[0] in data && data[1] in data;
    assert RecordIds(data) == {"r", "s"};
    PgcsOfEither(s.content, RecordIds(data));
    assert StoreLayer1(s, Redshift, data, true).content == Velocities(Regular);
    TouchOne(s.pgcs, 2);
  }

  function SavedState(): State {
    State(Velocities(Regular), map[], map[Pgc(1) := 2], 2, NO_SUMMARIES, PerCatalog(0, 0, 0, 0), 3)
  }

  lemma VelocitiesImported()
    ensures var op := OpImport(Config(Redshift, 100, false, None, true));
      Legal(SavedState(), op) && Next(SavedState(), op, TwoVelocities(Regular))
  {
    hide UpToDate, Populated;
    var s, cfg := SavedState(), Config(Redshift, 100, false, None, true);
    VelocitiesGroup(Regular);
    MeanIsRightIff(Regular);
    assert ReadSet(s, cfg) == {Pgc(1)};
    assert Removed(s, cfg) == {};
  }

  lemma TwoVelocitiesReachable()
    ensures Reachable(TwoVelocities(Regular))
  {
    hide Reachable, Legal, Next;
    TwoRecordsReachable();
    VelocitiesSaved();
    ReachOn(TwoRecords(), OpSave(Redshift, BothVelocities(), true), SavedState());
    VelocitiesImported();
    ReachOn(SavedState(), OpImport(Config(Redshift, 100, false, None, true)), TwoVelocities(Regular));
  }

  /** A reachable state in which a PATCH of one table's datatype makes a fresh row stale, and leaves no mark. */
  lemma ReclassifiedIsLost()
    ensures var s, t := TwoVelocities(Regular), TwoVelocities(Compilation);
      && Reachable(s) && t == UpdateDatatype(s, "second", Compilation)
      && Fresh(s, Redshift, Pgc(1)) && !Fresh(t, Redshift, Pgc(1))
  {
    hide Fresh, Reachable;
    var s := TwoVelocities(Regular);
    assert s.content.tables["second" := Compilation] == map["first" := Regular, "second" := Compilation];
    TwoVelocitiesReachable();
    StaleIff(Regular);
    StaleIff(Compilation);
  }

  /** Before the import, with PGC 1 still marked, the same PATCH changes the same group and does no harm. */
  lemma MarkedPatchIsHarmless()
    ensures var s, op := SavedState(), OpUpdateDatatype("second", Compilation);
      && Reachable(s) && !DatatypeGuard(s, "second", Compilation) && Legal(s, op)
      && Reachable(UpdateDatatype(s, "second", Compilation))
  {
    hide Reachable, SameButClasses, KeepsClasses, UnmarkedAnswers;
    var s := SavedState();
    TwoRecordsReachable();
    VelocitiesSaved();
    ReachOn(TwoRecords(), OpSave(Redshift, BothVelocities(), true), s);
    ReachableIsGood(s);
    DatatypeClasses(s, "second", Compilation);
    SavedIsMarked();
    ChangesMarkedSuffices(s, UpdateDatatype(s, "second", Compilation).content);
    ReachOn(s, OpUpdateDatatype("second", Compilation), UpdateDatatype(s, "second", Compilation));
  }

  lemma SavedIsMarked()
    ensures !DatatypeGuard(SavedState(), "second", Compilation)
    ensures ChangesMarked(SavedState(), UpdateDatatype(SavedState(), "second", Compilation).content)
  {
    var s := SavedState();
    assert Weighed(s.content, Redshift, Key("s", "best"));
    forall c: Catalog, k | Weighed(s.content, c, k) ensures Marked(s, c, s.content.records[k.record].pgc.value) {}
  }
}

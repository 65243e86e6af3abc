/** What the checks on layer 1 keep out stays out of both layers, over every run. */
module StoredValues {
  import opened Collections
  import opened Schema
  import opened Aggregation
  import opened Layers
  import opened Storage
  import opened Records
  import opened Layer1
  import opened Import
  import opened Freshness

  /** Positions are on the sphere, types and methods are known, and a designation is its own key. */
  predicate RowAllowed(k: Key, row: Row) {
    match row
    case IcrsRow(ra, dec) => 0.0 <= ra.value < 360.0 && -90.0 <= dec.value <= 90.0
    case NatureRow(typeName) => typeName in OBJECT_TYPES
    case RedshiftRow(_, _) => k.rest in METHODS
    case DesignationRow(design) => k.rest == design
  }

  /** The same of what layer 2 shows. */
  predicate SummaryAllowed(c: Catalog, y: Summary) {
    match c
    case Icrs =>
      && y.Position?
      && (y.ra.Estimate? ==> 0.0 <= y.ra.mean < 360.0) && (y.dec.Estimate? ==> -90.0 <= y.dec.mean <= 90.0)
    case Nature => y.Voted? && y.text in OBJECT_TYPES
    case Redshift => y.Velocity?
    case Designation => y.Voted?
  }

  ghost predicate TableAllowed(table: map<Key, Row>) {
    forall k | k in table :: RowAllowed(k, table[k])
  }

  ghost predicate SummariesAllowed(c: Catalog, l2: map<Pgc, Summary>) {
    forall p | p in l2 :: SummaryAllowed(c, l2[p])
  }

  ghost predicate Allowed(st: State) {
    && (forall c: Catalog :: TableAllowed(st.content.layer1.Get(c)))
    && (forall c: Catalog :: SummariesAllowed(c, st.layer2.Get(c)))
  }

  // ---- Saves ----

  lemma InputAllowed(c: Catalog, x: Input)
    requires RowFits(c, x.row)
    ensures InputChecks(x) <==> RowAllowed(KeyOf(c, x), x.row)
  {
    hide OBJECT_TYPES, METHODS;
  }

  lemma {:induction false} UpsertAllowed(c: Catalog, table: map<Key, Row>, data: seq<Input>, namesECz: bool)
    requires TableAllowed(table) && forall x | x in data :: RowFits(c, x.row) && InputChecks(x)
    ensures TableAllowed(UpsertRows(c, table, data, namesECz))
  {
    if data != [] {
      var last := data[|data| - 1];
      assert last in data;
      UpsertAllowed(c, table, data[..|data| - 1], namesECz);
      InputAllowed(c, last);
      hide InputChecks, KeyOf, RowFits, OBJECT_TYPES, METHODS;
    }
  }

  /** A request is refused just if a row is not allowed or its record is unknown. */
  lemma StorableIff(db: Content, c: Catalog, data: seq<Input>)
    requires forall x | x in data :: RowFits(c, x.row)
    ensures Storable(db, data) <==> forall x | x in data :: x.record in db.records && RowAllowed(KeyOf(c, x), x.row)
  {
    forall x | x in data ensures InputChecks(x) <==> RowAllowed(KeyOf(c, x), x.row) {
      InputAllowed(c, x);
    }
    hide InputChecks, RowAllowed, KeyOf;
  }

  // ---- Imports ----

  lemma {:induction false} SamplesAllowed(db: Content, c: Catalog, p: Pgc, keys: seq<Key>)
    requires AllStored(db, c, keys) && TableAllowed(db.layer1.Get(c))
    ensures forall x | x in SamplesOf(db, c, p, keys) :: exists k | k in db.layer1.Get(c) ::
      x.row == db.layer1.Get(c)[k] && RowAllowed(k, x.row)
  {
    hide RowAllowed;
    if keys != [] {
      SamplesAllowed(db, c, p, keys[1..]);
      assert keys[0] in keys;
    }
  }

  /** A row of layer 1 that reads as the sample does. */
  ghost predicate FromTable(table: map<Key, Row>, x: Sample) {
    exists k | k in table :: x.row == table[k] && RowAllowed(k, x.row)
  }

  lemma GroupAllowed(db: Content, c: Catalog, p: Pgc)
    requires TableAllowed(db.layer1.Get(c))
    ensures forall x | x in GroupRows(db, c, p) :: FromTable(db.layer1.Get(c), x)
  {
    SamplesAllowed(db, c, p, Listing(GroupKeys(db, c, p)));
    hide RowAllowed;
  }

  lemma {:induction false} VotedFor(s: seq<Sample>, text: string)
    requires Votes(s, text) > 0
    ensures exists x | x in s :: Text(x.row) == text
  {
    if Text(s[0].row) != text {
      VotedFor(s[1..], text);
      var x :| x in s[1..] && Text(x.row) == text;
      assert x in s;
    } else {
      assert s[0] in s;
    }
  }

  lemma {:induction false} ExcludeKeeps(s: seq<Sample>, primary: set<Pgc>)
    ensures forall x | x in Exclude(s, primary) :: x in s
  {
    if s != [] {
      ExcludeKeeps(s[1..], primary);
    }
  }

  lemma PositionAllowed(s: seq<Sample>, y: Summary)
    requires IsSummary(Icrs, s, y)
    requires forall x | x in s :: x.row.IcrsRow? && 0.0 <= x.row.ra.value < 360.0 && -90.0 <= x.row.dec.value <= 90.0
    ensures SummaryAllowed(Icrs, y)
  {
    hide WeightedMean;
    var kept := ExcludeCompilationsWithPrimary(s);
    ExcludeKeeps(s, PrimaryPgcs(s));
    if kept != [] {
      MeanStaysOnSphere(kept);
    } else {
      NothingToAverage();
    }
  }

  lemma NothingToAverage()
    ensures WeightedMean([], RaPart) == Estimate(0.0, 0.0) && WeightedMean([], DecPart) == Estimate(0.0, 0.0)
  {}

  lemma SummaryIsAllowed(db: Content, c: Catalog, p: Pgc, y: Summary)
    requires TableAllowed(db.layer1.Get(c)) && (forall k | k in db.layer1.Get(c) :: RowFits(c, db.layer1.Get(c)[k]))
    requires IsSummary(c, GroupRows(db, c, p), y)
    ensures SummaryAllowed(c, y)
  {
    var s, table := GroupRows(db, c, p), db.layer1.Get(c);
    GroupAllowed(db, c, p);
    hide GroupRows, OBJECT_TYPES, METHODS;
    match c
    case Icrs =>
      forall x | x in s ensures x.row.IcrsRow? && 0.0 <= x.row.ra.value < 360.0 && -90.0 <= x.row.dec.value <= 90.0 {
        assert FromTable(table, x);
      }
      PositionAllowed(s, y);
    case Nature =>
      VotedFor(s, y.text);
      var x :| x in s && Text(x.row) == y.text;
      assert FromTable(table, x);
    case _ =>
  }

  lemma ImportAllowed(s: State, cfg: Config, t: State)
    requires Valid(s) && Allowed(s) && IsImport(s, cfg, t)
    ensures Allowed(t)
  {
    hide IsSummary, GroupRows, RowAllowed, ReadSet, Removed;
    if !cfg.dryRun {
      var c := cfg.catalog;
      forall d: Catalog, p | p in t.layer2.Get(d) ensures SummaryAllowed(d, t.layer2.Get(d)[p]) {
        assert SummariesAllowed(d, s.layer2.Get(d)) && TableAllowed(s.content.layer1.Get(d));
        if d == c && p in ReadSet(s, cfg) {
          assert UpToDate(s.content, t.layer2.Get(c), c, p);
          assert ValidTable(c, s.content.layer1.Get(c), s.content.records);
          SummaryIsAllowed(s.content, c, p, t.layer2.Get(c)[p]);
        }
      }
    }
  }

  // ---- Runs ----

  /** The writers other than saves leave both layers alone. */
  lemma OthersLeaveLayers(s: State, op: Op, t: State)
    requires Next(s, op, t) && !op.OpSave? && !op.OpImport?
    ensures t.content.layer1 == s.content.layer1 && t.layer2 == s.layer2
  {
    hide SaveStructured, IsImport, FreeRun, MintedIds, FirstMissing, InvalidRows, ExistingRows, NewRows, ForeignKeysHold;
    hide Touched, WithPgcs, StoreRows, Retarget, NoDuplicates, PreviousPgcs, MintedFor, Elements;
  }

  lemma SaveAllowed(s: State, c: Catalog, data: seq<Input>, namesECz: bool)
    requires Allowed(s) && forall x | x in data :: RowFits(c, x.row)
    ensures Allowed(SaveStructured(s, c, data, namesECz).0)
  {
    hide RowAllowed, InputChecks;
    var t := SaveStructured(s, c, data, namesECz).0;
    assert t.layer2 == s.layer2;
    forall d: Catalog ensures TableAllowed(t.content.layer1.Get(d)) {
      assert TableAllowed(s.content.layer1.Get(d));
      if d == c && Storable(s.content, data) {
        UpsertAllowed(c, s.content.layer1.Get(c), data, namesECz);
      }
    }
  }

  /** In every run from the empty database both layers hold nothing but allowed rows. */
  lemma {:induction false} RunsStayAllowed(states: seq<State>, ops: seq<Op>, i: nat)
    requires IsRun(states, ops) && i < |states|
    ensures Allowed(states[i])
  {
    hide Allowed, SaveStructured;
    if i == 0 {
      EmptyAllowed();
    } else {
      RunsStayAllowed(states, ops, i - 1);
      RunsAreFresh(states, ops, i - 1);
      var s, op, t := states[i - 1], ops[i - 1], states[i];
      assert Legal(s, op) && Next(s, op, t) && Valid(s);
      match op
      case OpSave(c, data, namesECz) => SaveAllowed(s, c, data, namesECz);
      case OpImport(cfg) =>
        NextImport(s, op, t);
        ImportAllowed(s, cfg, t);
      case _ =>
        OthersLeaveLayers(s, op, t);
        SameLayersAllowed(s, t);
    }
  }

  lemma SameLayersAllowed(s: State, t: State)
    requires Allowed(s) && t.content.layer1 == s.content.layer1 && t.layer2 == s.layer2
    ensures Allowed(t)
  {}

  lemma EmptyAllowed()
    ensures Allowed(Empty())
  {
    forall c: Catalog ensures TableAllowed(Empty().content.layer1.Get(c)) && SummariesAllowed(c, Empty().layer2.Get(c)) {}
  }
}

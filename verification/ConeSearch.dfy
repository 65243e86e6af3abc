/** From layer-1 rows to the answer of a cone search: the import and the query together. */
module ConeSearch {
  import opened Collections
  import opened Schema
  import opened Aggregation
  import opened Layers
  import opened Import
  import opened Freshness
  import opened Filters
  import opened Joins
  import opened QueryPlan
  import opened Rendering
  import opened SearchResults
  import opened SearchParameters
  import opened CatalogQuery

  function EntriesOf(l2: map<Pgc, Summary>, keys: seq<Pgc>): seq<Entry>
    requires forall p | p in keys :: p in l2
  {
    if keys == [] then [] else [Entry(keys[0], l2[keys[0]])] + EntriesOf(l2, keys[1..])
  }

  function RowsOf(l2: map<Pgc, Summary>): seq<Entry> {
    EntriesOf(l2, Ascending(l2.Keys))
  }

  /** The layer-2 tables of a state; what the views hold is given. */
  function ContentsOf(st: State, views: Contents): Contents {
    name =>
      if name == DESIGNATION then RowsOf(st.layer2.designation)
      else if name == ICRS then RowsOf(st.layer2.icrs)
      else if name == CZ then RowsOf(st.layer2.redshift)
      else if name == NATURE then RowsOf(st.layer2.nature)
      else views(name)
  }

  lemma {:induction false} EntriesFacts(l2: map<Pgc, Summary>, keys: seq<Pgc>, p: Pgc)
    requires forall q | q in keys :: q in l2
    ensures Pgcs(EntriesOf(l2, keys)) == keys
    ensures Lookup(EntriesOf(l2, keys), p) == if p in keys then Some(l2[p]) else None
  {
    if keys != [] {
      assert forall q | q in keys[1..] :: q in keys;
      EntriesFacts(l2, keys[1..], p);
      assert keys == [keys[0]] + keys[1..];
    }
  }

  lemma RowsFacts(l2: map<Pgc, Summary>, p: Pgc)
    ensures NoDuplicates(Pgcs(RowsOf(l2)))
    ensures Lookup(RowsOf(l2), p) == if p in l2 then Some(l2[p]) else None
  {
    var keys := Ascending(l2.Keys);
    EntriesFacts(l2, keys, p);
    forall i, j | 0 <= i < j < |keys| ensures keys[i] != keys[j] {
      assert keys[i].number < keys[j].number;
    }
  }

  /** The rows of a layer-2 table: those of its catalog. */
  function CatalogOf(n: Relation): Catalog
    requires n in LAYER2_TABLES
  {
    if n == DESIGNATION then Designation else if n == ICRS then Icrs else if n == CZ then Redshift else Nature
  }

  /** Each layer-2 table holds the rows of its catalog. */
  lemma TablesOfCatalogs(st: State, views: Contents)
    ensures ContentsOf(st, views)(DESIGNATION) == RowsOf(st.layer2.Get(Designation))
    ensures ContentsOf(st, views)(ICRS) == RowsOf(st.layer2.Get(Icrs))
    ensures ContentsOf(st, views)(CZ) == RowsOf(st.layer2.Get(Redshift))
    ensures ContentsOf(st, views)(NATURE) == RowsOf(st.layer2.Get(Nature))
    ensures DESIGNATION == "layer2.designation" && ICRS == "layer2.icrs" && CZ == "layer2.cz" && NATURE == "layer2.nature"
  {
    TableNamesDiffer();
    TableNames();
    hide RowsOf, DESIGNATION, ICRS, CZ, NATURE;
  }

  lemma TableNames()
    ensures DESIGNATION == "layer2.designation" && ICRS == "layer2.icrs" && CZ == "layer2.cz" && NATURE == "layer2.nature"
  {}

  lemma TableNamesDiffer()
    ensures DESIGNATION != ICRS && DESIGNATION != CZ && DESIGNATION != NATURE
    ensures ICRS != CZ && ICRS != NATURE && CZ != NATURE
  {
    assert DESIGNATION[7] == 'd' && ICRS[7] == 'i' && CZ[7] == 'c' && NATURE[7] == 'n';
  }

  lemma TableIsUnique(st: State, views: Contents, n: Relation)
    requires n in LAYER2_TABLES
    ensures NoDuplicates(Pgcs(ContentsOf(st, views)(n)))
  {
    hide RowsOf, Pgcs, NoDuplicates;
    assert ContentsOf(st, views)(n) == RowsOf(st.layer2.Get(CatalogOf(n)));
    RowsFacts(st.layer2.Get(CatalogOf(n)), Pgc(0));
  }

  lemma TablesAreUnique(st: State, views: Contents, names: seq<Relation>)
    requires forall n | n in names :: n in LAYER2_TABLES
    ensures UniqueTables(ContentsOf(st, views), names)
  {
    forall n | n in names ensures NoDuplicates(Pgcs(ContentsOf(st, views)(n))) {
      TableIsUnique(st, views, n);
    }
  }

  lemma {:induction false} PartIsLookup(contents: Contents, names: seq<Relation>, n: Relation, p: Pgc)
    requires NoDuplicates(names) && n in names
    ensures PartIn(ObjectParts(TablesOf(contents, names), p), n) == Lookup(contents(n), p)
  {
    hide Lookup;
    FirstPartOf(contents, names, p);
    if n != names[0] {
      assert names == [names[0]] + names[1..];
      PartIsLookup(contents, names[1..], n, p);
    }
  }

  function PartIn(parts: map<Relation, Summary>, n: Relation): Option<Summary> {
    if n in parts then Some(parts[n]) else None
  }

  lemma FirstPartOf(contents: Contents, names: seq<Relation>, p: Pgc)
    requires NoDuplicates(names) && names != []
    ensures var parts, rest := ObjectParts(TablesOf(contents, names), p), ObjectParts(TablesOf(contents, names[1..]), p);
      && PartIn(parts, names[0]) == Lookup(contents(names[0]), p)
      && forall n | n != names[0] :: PartIn(parts, n) == PartIn(rest, n)
  {
    hide Lookup;
    var tables := TablesOf(contents, names);
    assert tables[1..] == TablesOf(contents, names[1..]);
    TablesHaveNames(contents, names);
    TailNames(tables);
    assert ObjectParts(tables[1..], p).Keys <= Names(tables[1..]);
  }

  /** A request with a centre and a radius and nothing else. */
  function Cone(radius: real): Filter {
    And(SimpleFilters(SimpleQuery(None, Some(radius), None)))
  }

  function Centre(ra: real, dec: real): SearchParams {
    CombinedParams([IcrsParams(ra, dec)])
  }

  lemma CentreParams(ra: real, dec: real)
    ensures GetParams(Centre(ra, dec)) == Params(Some(ra), Some(dec), None)
  {
    var parts := [IcrsParams(ra, dec)];
    assert parts[1..] == [];
    assert MergedParams(parts) == Update(GetParams(parts[0]), MergedParams(parts[1..]));
  }

  lemma ConeMeans(db: Predicates, radius: real, row: Joined)
    ensures DrivingTable(Cone(radius)) == Some(ICRS) && Writable(Cone(radius))
    ensures Eval(db, Cone(radius), row) == EvalLeaf(db, InRadius(radius), row)
  {
    SimpleFilterFacts(SimpleQuery(None, Some(radius), None));
    var fs := SimpleFilters(SimpleQuery(None, Some(radius), None));
    assert fs == [InRadius(radius)] && fs[1..] == [];
    assert EvalAnd(db, fs, row) == Both(Eval(db, fs[0], row), EvalAnd(db, fs[1..], row));
    assert Eval(db, fs[0], row) == EvalLeaf(db, InRadius(radius), row);
  }

  /**
   * The weighted mean of an object's positions, compilations set aside, is within the radius of the centre. None of the
   * positions that count may have a zero error, or there is no mean.
   */
  ghost predicate InCone(db: Predicates, content: Content, p: Pgc, ra: real, dec: real, radius: real) {
    var kept := ExcludeCompilationsWithPrimary(GroupRows(content, Icrs, p));
    && p in Populated(content, Icrs)
    && !SomeZeroError(kept, RaPart) && !SomeZeroError(kept, DecPart)
    && db.within(ra, dec, WeightedMean(kept, RaPart).mean, WeightedMean(kept, DecPart).mean, radius)
  }

  lemma PositionsAreMeans(st: State, p: Pgc)
    requires IsRecompute(st.content, Icrs, st.layer2.icrs)
    ensures var kept := ExcludeCompilationsWithPrimary(GroupRows(st.content, Icrs, p));
      Lookup(RowsOf(st.layer2.icrs), p) ==
        if p in Populated(st.content, Icrs) then Some(Position(WeightedMean(kept, RaPart), WeightedMean(kept, DecPart)))
        else None
  {
    RowsFacts(st.layer2.icrs, p);
    if p in Populated(st.content, Icrs) {
      assert UpToDate(st.content, st.layer2.icrs, Icrs, p);
    }
  }

  lemma NumbersIff(kept: seq<Sample>)
    ensures WeightedMean(kept, RaPart).Estimate? <==> !SomeZeroError(kept, RaPart)
    ensures WeightedMean(kept, DecPart).Estimate? <==> !SomeZeroError(kept, DecPart)
  {}

  /** While layer 2 is what layer 1 gives, a cone search answers with an object iff layer 1 puts it in the cone. */
  lemma ConeSearchIsExact(db: Predicates, st: State, views: Contents, names: seq<Relation>,
                          ra: real, dec: real, radius: real, p: Pgc)
    requires IsRecompute(st.content, Icrs, st.layer2.icrs)
    requires NoDuplicates(names) && names != [] && forall n | n in names :: n in LAYER2_TABLES
    ensures var contents := ContentsOf(st, views);
      var row := FoundRow(SearchOf(Centre(ra, dec)), TablesOf(contents, Subject(Some(ICRS), names)), p);
      row in Answer(db, contents, Centre(ra, dec), Cone(radius), names) <==> InCone(db, st.content, p, ra, dec, radius)
  {
    hide Answer, IsRecompute, ObjectParts, ExcludeCompilationsWithPrimary, WeightedMean, Populated, GroupRows, Lookup,
      RowsOf;
    var contents := ContentsOf(st, views);
    var centre := Centre(ra, dec);
    var subject := Subject(Some(ICRS), names);
    var row := FoundRow(SearchOf(centre), TablesOf(contents, subject), p);
    ConeMeans(db, radius, row);
    CentreParams(ra, dec);
    FromOrderDistinct(Some(ICRS), names);
    TablesAreUnique(st, views, subject);
    DrivenAnswerIsExact(db, contents, centre, Cone(radius), names, row);
    CountMember(Answer(db, contents, centre, Cone(radius), names), row);
    PartIsLookup(contents, subject, ICRS, p);
    PositionsAreMeans(st, p);
    NumbersIff(ExcludeCompilationsWithPrimary(GroupRows(st.content, Icrs, p)));
  }

  /** The same, right after the import of positions at any point of any run. */
  lemma ConeSearchAfterImport(states: seq<State>, ops: seq<Op>, i: nat, db: Predicates, views: Contents,
                              names: seq<Relation>, ra: real, dec: real, radius: real, p: Pgc)
    requires IsRun(states, ops) && i < |ops|
    requires ops[i].OpImport? && ops[i].config.catalog == Icrs && !ops[i].config.dryRun && ops[i].config.cleanup
    requires NoDuplicates(names) && names != [] && forall n | n in names :: n in LAYER2_TABLES
    ensures var st := states[i + 1];
      var contents := ContentsOf(st, views);
      var row := FoundRow(SearchOf(Centre(ra, dec)), TablesOf(contents, Subject(Some(ICRS), names)), p);
      row in Answer(db, contents, Centre(ra, dec), Cone(radius), names) <==> InCone(db, st.content, p, ra, dec, radius)
  {
    hide Answer, ObjectParts, InCone, IsRun;
    PositionsExact(states, ops, i);
    ConeSearchIsExact(db, states[i + 1], views, names, ra, dec, radius, p);
  }

  lemma PositionsExact(states: seq<State>, ops: seq<Op>, i: nat)
    requires IsRun(states, ops) && i < |ops|
    requires ops[i].OpImport? && ops[i].config.catalog == Icrs && !ops[i].config.dryRun && ops[i].config.cleanup
    ensures |states| == |ops| + 1 && IsRecompute(states[i + 1].content, Icrs, states[i + 1].layer2.icrs)
  {
    RunsAreFresh(states, ops, i);
    assert Good(states[i]) && Legal(states[i], ops[i]) && Next(states[i], ops[i], states[i + 1]);
    NextImport(states[i], ops[i], states[i + 1]);
    forall p ensures Fresh(states[i], Icrs, p) {}
    FreshUnread(states[i], ops[i].config);
    ImportExactIff(states[i], ops[i].config, states[i + 1]);
  }
}

/** What a caller of `query_catalogs` gets: objects found once, objects lost, queries the database refuses. */
module SearchResults {
  import opened Collections
  import opened Schema
  import opened Filters
  import opened Joins
  import opened QueryPlan
  import opened Rendering

  // ---- Tables with one entry per object ----

  ghost predicate Unique(t: Table) {
    NoDuplicates(Pgcs(t.entries))
  }

  function Pgcs(entries: seq<Entry>): seq<Pgc> {
    if entries == [] then [] else [entries[0].pgc] + Pgcs(entries[1..])
  }

  function Lookup(entries: seq<Entry>, p: Pgc): Option<Summary> {
    if entries == [] then None
    else if entries[0].pgc == p then Some(entries[0].summary)
    else Lookup(entries[1..], p)
  }

  /** Everything the tables say about an object. */
  function ObjectParts(tables: seq<Table>, p: Pgc): (parts: map<Relation, Summary>)
    ensures parts.Keys <= Names(tables)
  {
    if tables == [] then map[] else
      assert forall t | t in tables[1..] :: t in tables;
      var rest := ObjectParts(tables[1..], p);
      var found := Lookup(tables[0].entries, p);
      assert tables[0] in tables;
      if found.Some? then rest[tables[0].name := found.value] else rest
  }

  lemma {:induction false} HoldsIsMember(entries: seq<Entry>, p: Pgc)
    ensures Holds(entries, p) <==> p in Pgcs(entries)
    ensures Holds(entries, p) <==> Lookup(entries, p).Some?
  {
    if entries != [] {
      HoldsIsMember(entries[1..], p);
    }
  }

  lemma {:induction false} LookupCount(entries: seq<Entry>, p: Pgc, x: Summary)
    requires NoDuplicates(Pgcs(entries))
    ensures Count(entries, Entry(p, x)) == if Lookup(entries, p) == Some(x) then 1 else 0
  {
    if entries != [] {
      var pgcs := Pgcs(entries);
      assert pgcs[1..] == Pgcs(entries[1..]);
      assert pgcs[0] !in pgcs[1..];
      LookupCount(entries[1..], p, x);
      HoldsIsMember(entries[1..], p);
      NoEntryNoCount(entries[1..], p, x);
    }
  }

  /** A row says of each table just what the table says of the object. */
  predicate Agrees(tables: seq<Table>, row: Joined) {
    tables == [] ||
    ( && Lookup(tables[0].entries, row.pgc) ==
         (if tables[0].name in row.parts then Some(row.parts[tables[0].name]) else None)
      && Agrees(tables[1..], row))
  }

  lemma {:induction false} MultiplicityOfUnique(tables: seq<Table>, row: Joined)
    requires forall t | t in tables :: Unique(t)
    ensures Multiplicity(tables, row) == if Agrees(tables, row) then 1 else 0
  {
    if tables != [] {
      assert tables[0] in tables;
      assert forall t | t in tables[1..] :: t in tables;
      MultiplicityOfUnique(tables[1..], row);
      HoldsIsMember(tables[0].entries, row.pgc);
      if tables[0].name in row.parts {
        LookupCount(tables[0].entries, row.pgc, row.parts[tables[0].name]);
      }
    }
  }

  lemma {:induction false} AgreesOnParts(tables: seq<Table>, row: Joined)
    requires DistinctNames(tables)
    ensures Agrees(tables, row) <==>
      forall n | n in Names(tables) :: (n in row.parts <==> n in ObjectParts(tables, row.pgc))
        && (n in row.parts ==> row.parts[n] == ObjectParts(tables, row.pgc)[n])
  {
    if tables != [] {
      TailNames(tables);
      AgreesOnParts(tables[1..], row);
      assert ObjectParts(tables[1..], row.pgc).Keys <= Names(tables[1..]);
    }
  }

  lemma {:induction false} PartsFound(tables: seq<Table>, p: Pgc)
    ensures ObjectParts(tables, p) != map[] <==> AnyHolds(tables, p)
  {
    if tables != [] {
      PartsFound(tables[1..], p);
      HoldsIsMember(tables[0].entries, p);
      if Lookup(tables[0].entries, p).Some? {
        assert tables[0].name in ObjectParts(tables, p);
      }
    }
  }

  lemma AgreesWithObject(tables: seq<Table>, row: Joined)
    requires DistinctNames(tables)
    ensures row.parts.Keys <= Names(tables) && Agrees(tables, row) <==> row.parts == ObjectParts(tables, row.pgc)
  {
    hide Agrees, Lookup;
    AgreesOnParts(tables, row);
    if row.parts.Keys <= Names(tables) && Agrees(tables, row) {
      assert row.parts == ObjectParts(tables, row.pgc);
    }
  }

  /** Joined in full, tables that are unique per object give each object they know one row. */
  lemma OneRowPerObject(tables: seq<Table>, row: Joined)
    requires DistinctNames(tables) && forall t | t in tables :: Unique(t)
    ensures Count(FullJoinOf(tables), row) ==
      if row == Joined(None, row.pgc, ObjectParts(tables, row.pgc)) && AnyHolds(tables, row.pgc) then 1 else 0
  {
    hide Agrees, ObjectParts, Multiplicity, AnyHolds, FullJoinOf, Unique;
    FullJoinOfCount(tables, row);
    MultiplicityOfUnique(tables, row);
    AgreesWithObject(tables, row);
    PartsFound(tables, row.pgc);
    assert row.parts.Keys == {} <==> row.parts == map[];
  }

  // ---- One search ----

  ghost predicate UniqueTables(contents: Contents, names: seq<Relation>) {
    forall n | n in names :: NoDuplicates(Pgcs(contents(n)))
  }

  /** The row that a search makes of an object. */
  function FoundRow(search: SearchRow, tables: seq<Table>, p: Pgc): Joined {
    Joined(Some(search), p, ObjectParts(tables, p))
  }

  lemma TablesUnique(contents: Contents, names: seq<Relation>)
    requires NoDuplicates(names) && UniqueTables(contents, names)
    ensures DistinctNames(TablesOf(contents, names)) && forall t | t in TablesOf(contents, names) :: Unique(t)
  {
    TablesHaveNames(contents, names);
  }

  /** A search meets every object of the tables once. */
  lemma IntendedOnce(contents: Contents, search: SearchRow, driving: Option<Relation>, names: seq<Relation>,
                     row: Joined)
    requires NoDuplicates(names) && row.search.Some? && UniqueTables(contents, Subject(driving, names))
    ensures var tables := TablesOf(contents, Subject(driving, names));
      Count(Intended(contents, [search], driving, names), row) ==
        if row == FoundRow(search, tables, row.pgc) && AnyHolds(tables, row.pgc) then 1 else 0
  {
    hide Intended, ObjectParts, AnyHolds, FullJoinOf, Multiplicity, UniqueTables, Unique, Subject;
    var tables := TablesOf(contents, Subject(driving, names));
    var core := row.(search := None);
    FromOrderDistinct(driving, names);
    TablesUnique(contents, Subject(driving, names));
    IntendedCount(contents, [search], driving, names, row);
    FullJoinOfCount(tables, core);
    OneRowPerObject(tables, core);
    assert Count([search], row.search.value) == if row.search.value == search then 1 else 0;
  }

  /**
   * A search with a driving table selects each object its filter accepts once, with all the catalogs say about it,
   * and nothing else.
   */
  lemma SearchFindsEachOnce(db: Predicates, types: seq<Search>, contents: Contents, search: SearchRow,
                            names: seq<Relation>, row: Joined)
    requires NoDuplicates(names) && names != [] && QueryDriving(types).Some?
    requires UniqueTables(contents, Subject(QueryDriving(types), names))
    ensures var tables := TablesOf(contents, Subject(QueryDriving(types), names));
      Count(Where(db, types, Emitted(contents, [search], QueryDriving(types), names)), row) ==
        if row == FoundRow(search, tables, row.pgc) && EvalSearches(db, types, row) == True then 1 else 0
  {
    hide Emitted, Intended, ObjectParts, AnyHolds, EvalSearches, UniqueTables, Where;
    var driving := QueryDriving(types);
    WhereCount(db, types, Emitted(contents, [search], driving, names), row);
    if row.search.None? {
      UnsearchedIsNotTrue(db, types, row);
    } else if driving.value !in row.parts {
      QueryDrivingSound(db, types, row);
    } else {
      EmittedCount(contents, [search], driving, names, row);
      IntendedOnce(contents, search, driving, names, row);
      PartsFound(TablesOf(contents, Subject(driving, names)), row.pgc);
    }
  }

  // ---- A search without a driving table ----

  /** `query_catalogs` for given object numbers: the filter is a leaf and its one search type is the search's own. */
  function PgcTypes(name: string, pgcs: seq<Pgc>): seq<Search> {
    [Search(name, PgcOneOf(pgcs))]
  }

  lemma PgcSearchTrue(db: Predicates, search: SearchRow, pgcs: seq<Pgc>, row: Joined)
    requires row.search == Some(search)
    ensures EvalSearches(db, PgcTypes(search.searchType, pgcs), row) == OfBool(row.pgc in pgcs)
  {
    var types := PgcTypes(search.searchType, pgcs);
    assert EvalSearches(db, types[1..], row) == False;
  }

  /**
   * Asked for an object by number, the query answers iff its first table holds the object: that another requested
   * catalog does is not enough, though the join it stands for has a row for it.
   */
  lemma PgcSearchAnswersIff(db: Predicates, contents: Contents, search: SearchRow, pgcs: seq<Pgc>, names: seq<Relation>,
                            p: Pgc)
    requires NoDuplicates(names) && names != [] && UniqueTables(contents, names) && p in pgcs
    ensures var tables := TablesOf(contents, names);
      var row := FoundRow(search, tables, p);
      var types := PgcTypes(search.searchType, pgcs);
      && (row in Where(db, types, Intended(contents, [search], None, names)) <==> AnyHolds(tables, p))
      && (row in Where(db, types, Emitted(contents, [search], None, names)) <==> Holds(contents(names[0]), p))
  {
    hide Emitted, Intended, AnyHolds, EvalSearches, UniqueTables, Where, PgcTypes;
    var tables := TablesOf(contents, names);
    var row := FoundRow(search, tables, p);
    var types := PgcTypes(search.searchType, pgcs);
    PgcSearchTrue(db, search, pgcs, row);
    WhereCount(db, types, Intended(contents, [search], None, names), row);
    WhereCount(db, types, Emitted(contents, [search], None, names), row);
    CountMember(Where(db, types, Intended(contents, [search], None, names)), row);
    CountMember(Where(db, types, Emitted(contents, [search], None, names)), row);
    EmittedCount(contents, [search], None, names, row);
    IntendedOnce(contents, search, None, names, row);
    FirstPart(contents, names, p);
  }

  /** The rows a search selects from unique tables are those of the accepted objects. */
  lemma SelectedObject(db: Predicates, types: seq<Search>, contents: Contents, search: SearchRow, names: seq<Relation>,
                       row: Joined)
    requires NoDuplicates(names) && UniqueTables(contents, names)
    ensures var tables := TablesOf(contents, names);
      row in Where(db, types, Intended(contents, [search], None, names)) <==>
        row == FoundRow(search, tables, row.pgc) && AnyHolds(tables, row.pgc) && EvalSearches(db, types, row) == True
  {
    hide Intended, ObjectParts, AnyHolds, EvalSearches, UniqueTables, Where, TablesOf;
    WhereCount(db, types, Intended(contents, [search], None, names), row);
    CountMember(Where(db, types, Intended(contents, [search], None, names)), row);
    if row.search.None? {
      UnsearchedIsNotTrue(db, types, row);
    } else {
      IntendedOnce(contents, search, None, names, row);
    }
  }

  /** The first table holds every object that some table holds and the search accepts. */
  ghost predicate FirstHoldsAccepted(db: Predicates, types: seq<Search>, contents: Contents, search: SearchRow,
                                     names: seq<Relation>)
    requires names != []
  {
    var tables := TablesOf(contents, names);
    forall p | AnyHolds(tables, p) && EvalSearches(db, types, FoundRow(search, tables, p)) == True ::
      Holds(contents(names[0]), p)
  }

  /** Without a driving table a search of unique tables loses nothing iff the first holds every object it accepts. */
  lemma UndrivenFoundIff(db: Predicates, types: seq<Search>, contents: Contents, search: SearchRow, names: seq<Relation>)
    requires NoDuplicates(names) && names != [] && UniqueTables(contents, names)
    ensures multiset(Where(db, types, Emitted(contents, [search], None, names))) ==
        multiset(Where(db, types, Intended(contents, [search], None, names)))
      <==> FirstHoldsAccepted(db, types, contents, search, names)
  {
    hide Emitted, Intended, ObjectParts, UniqueTables, EvalSearches;
    var tables := TablesOf(contents, names);
    var selected := Where(db, types, Intended(contents, [search], None, names));
    FullJoinExactIff(db, types, contents, [search], names);
    if FirstHoldsAccepted(db, types, contents, search, names) {
      forall row | row in selected ensures names[0] in row.parts {
        SelectedObject(db, types, contents, search, names, row);
        FirstPart(contents, names, row.pgc);
      }
    }
    if AllIn(selected, names[0]) {
      forall p | AnyHolds(tables, p) && EvalSearches(db, types, FoundRow(search, tables, p)) == True
        ensures Holds(contents(names[0]), p)
      {
        SelectedObject(db, types, contents, search, names, FoundRow(search, tables, p));
        FirstPart(contents, names, p);
      }
    }
  }

  // ---- A search without filters ----

  /** A simple query with no radius and no name has no conjunct: it asks for every object. */
  function EverythingTypes(name: string): seq<Search> {
    SimpleTypes(SimpleQuery(None, None, None), name)
  }

  lemma EverythingTrue(db: Predicates, name: string, row: Joined)
    ensures EvalSearches(db, EverythingTypes(name), row) == TypeIs(row, name)
  {
    assert EverythingTypes(name) == [Search(name, And([]))];
    assert EvalSearches(db, EverythingTypes(name)[1..], row) == False;
    assert Eval(db, And([]), row) == True;
  }

  /** The full join has a row for an object just if a table holds it. */
  lemma {:induction false} SomeRow(rows: seq<Joined>, p: Pgc) returns (row: Joined)
    requires HasPgc(rows, p)
    ensures row in rows && row.pgc == p
  {
    if rows[0].pgc == p {
      row := rows[0];
    } else {
      row := SomeRow(rows[1..], p);
    }
  }

  lemma {:induction false} PgcOfRow(rows: seq<Joined>, row: Joined)
    requires row in rows
    ensures HasPgc(rows, row.pgc)
  {
    if rows[0] != row {
      PgcOfRow(rows[1..], row);
    }
  }

  lemma FullJoinHolds(tables: seq<Table>, p: Pgc)
    requires DistinctNames(tables)
    ensures HasPgc(FullJoinOf(tables), p) <==> AnyHolds(tables, p)
  {
    if tables != [] {
      assert tables == [tables[0]] + tables[1..];
      ScanIsFullJoin(tables[0]);
      FullJoinsStep(Scan(tables[0].name, tables[0].entries), [tables[0]], tables[1..]);
    }
  }

  /** In a row of the full join the first table has its part just if it holds the object. */
  lemma RowInFirstIff(contents: Contents, names: seq<Relation>, row: Joined)
    requires NoDuplicates(names) && names != [] && row in FullJoinOf(TablesOf(contents, names))
    ensures names[0] in row.parts <==> Holds(contents(names[0]), row.pgc)
  {
    hide FullJoinOf, Multiplicity, TablesOf;
    var tables := TablesOf(contents, names);
    TablesHaveNames(contents, names);
    CountMember(FullJoinOf(tables), row);
    FullJoinOfCount(tables, row);
    Unfold(tables, row);
    FactorPositive(EntryCount(tables[0], row), Multiplicity(tables[1..], row));
    if names[0] in row.parts {
      NoEntryNoCount(contents(names[0]), row.pgc, row.parts[names[0]]);
    }
  }

  lemma FactorPositive(a: nat, b: nat)
    ensures a * b > 0 ==> a > 0
  {}

  /** The rows that every search for everything selects from the intended join. */
  lemma EverythingSelected(db: Predicates, contents: Contents, search: SearchRow, names: seq<Relation>, row: Joined)
    requires NoDuplicates(names)
    ensures row in Where(db, EverythingTypes(search.searchType), Intended(contents, [search], None, names)) <==>
      row.search == Some(search) && row.(search := None) in FullJoinOf(TablesOf(contents, names))
  {
    hide EvalSearches, Where, EverythingTypes, TablesOf;
    var types := EverythingTypes(search.searchType);
    var rows := FullJoinOf(TablesOf(contents, names));
    var intended := Intended(contents, [search], None, names);
    TablesHaveNames(contents, names);
    NoSearchInFullJoin(TablesOf(contents, names));
    CrossJoinCount([search], rows, row);
    EverythingTrue(db, search.searchType, row);
    WhereCount(db, types, intended, row);
    CountMember(Where(db, types, intended), row);
    CountMember(rows, row.(search := None));
    assert row.search.Some? ==> Count([search], row.search.value) == if row.search.value == search then 1 else 0;
  }

  /** The first table holds every object that some table holds. */
  ghost predicate FirstHolds(contents: Contents, names: seq<Relation>)
    requires names != []
  {
    forall p | AnyHolds(TablesOf(contents, names), p) :: Holds(contents(names[0]), p)
  }

  lemma FirstHoldsAll(db: Predicates, contents: Contents, search: SearchRow, names: seq<Relation>, row: Joined)
    requires NoDuplicates(names) && names != []
    requires FirstHolds(contents, names)
    requires row in Where(db, EverythingTypes(search.searchType), Intended(contents, [search], None, names))
    ensures names[0] in row.parts
  {
    hide Intended, Where, EverythingTypes, TablesOf, Holds, FullJoinOf;
    EverythingSelected(db, contents, search, names, row);
    TablesHaveNames(contents, names);
    var core := row.(search := None);
    PgcOfRow(FullJoinOf(TablesOf(contents, names)), core);
    FullJoinHolds(TablesOf(contents, names), core.pgc);
    RowInFirstIff(contents, names, core);
  }

  lemma HeldInFirst(db: Predicates, contents: Contents, search: SearchRow, names: seq<Relation>, p: Pgc)
    requires NoDuplicates(names) && names != [] && AnyHolds(TablesOf(contents, names), p)
    requires AllIn(Where(db, EverythingTypes(search.searchType), Intended(contents, [search], None, names)), names[0])
    ensures Holds(contents(names[0]), p)
  {
    hide Intended, Where, EverythingTypes, TablesOf, Holds, FullJoinOf;
    TablesHaveNames(contents, names);
    FullJoinHolds(TablesOf(contents, names), p);
    var core := SomeRow(FullJoinOf(TablesOf(contents, names)), p);
    NoSearchInFullJoin(TablesOf(contents, names));
    var row := core.(search := Some(search));
    assert row.(search := None) == core;
    EverythingSelected(db, contents, search, names, row);
    RowInFirstIff(contents, names, core);
  }

  /** A query without filters loses nothing iff every object that a requested table holds is in the first of them. */
  lemma EverythingFoundIff(db: Predicates, contents: Contents, search: SearchRow, names: seq<Relation>)
    requires NoDuplicates(names) && names != []
    ensures var types := EverythingTypes(search.searchType);
      multiset(Where(db, types, Emitted(contents, [search], None, names))) ==
        multiset(Where(db, types, Intended(contents, [search], None, names)))
      <==> FirstHolds(contents, names)
  {
    hide Emitted, Intended, EverythingTypes;
    var types := EverythingTypes(search.searchType);
    var selected := Where(db, types, Intended(contents, [search], None, names));
    FullJoinExactIff(db, types, contents, [search], names);
    if FirstHolds(contents, names) {
      forall row | row in selected ensures names[0] in row.parts {
        FirstHoldsAll(db, contents, search, names, row);
      }
    }
    if AllIn(selected, names[0]) {
      forall p | AnyHolds(TablesOf(contents, names), p) ensures Holds(contents(names[0]), p) {
        HeldInFirst(db, contents, search, names, p);
      }
    }
  }

  /** An object with a position and no designation. */
  function PositionOnly(): Contents {
    name => if name == ICRS then [Entry(Pgc(1), Position(Estimate(10.0, 1.0), Estimate(20.0, 1.0)))] else []
  }

  /** It is in the answer for everything when positions come first, and missing when designations do. */
  lemma PositionOnlyIsLost(db: Predicates, search: SearchRow)
    ensures var types := EverythingTypes(search.searchType);
      && multiset(Where(db, types, Emitted(PositionOnly(), [search], None, [ICRS, DESIGNATION]))) ==
         multiset(Where(db, types, Intended(PositionOnly(), [search], None, [ICRS, DESIGNATION])))
      && multiset(Where(db, types, Emitted(PositionOnly(), [search], None, [DESIGNATION, ICRS]))) !=
         multiset(Where(db, types, Intended(PositionOnly(), [search], None, [DESIGNATION, ICRS])))
  {
    hide Emitted, Intended, EverythingTypes, FirstHolds;
    assert NoDuplicates([ICRS, DESIGNATION]) && NoDuplicates([DESIGNATION, ICRS]);
    EverythingFoundIff(db, PositionOnly(), search, [ICRS, DESIGNATION]);
    EverythingFoundIff(db, PositionOnly(), search, [DESIGNATION, ICRS]);
    PositionOnlyHolds();
  }

  lemma PositionOnlyHolds()
    ensures FirstHolds(PositionOnly(), [ICRS, DESIGNATION]) && !FirstHolds(PositionOnly(), [DESIGNATION, ICRS])
  {
    var entries := PositionOnly()(ICRS);
    assert entries[1..] == [];
    assert [ICRS, DESIGNATION][1..] == [DESIGNATION] && [DESIGNATION][1..] == [];
    assert [DESIGNATION, ICRS][1..] == [ICRS] && [ICRS][1..] == [];
    var a, b := Table(ICRS, entries), Table(DESIGNATION, []);
    assert TablesOf(PositionOnly(), [DESIGNATION]) == [b];
    assert TablesOf(PositionOnly(), [ICRS, DESIGNATION]) == [a, b];
    assert TablesOf(PositionOnly(), [ICRS]) == [a];
    assert TablesOf(PositionOnly(), [DESIGNATION, ICRS]) == [b, a];
    assert [a, b][1..] == [b] && [b, a][1..] == [a];
    assert AnyHolds([a], Pgc(1)) && AnyHolds([b, a], Pgc(1)) && !Holds([], Pgc(1));
    forall p | AnyHolds([a, b], p) ensures Holds(entries, p) {
      assert !AnyHolds([b], p);
    }
  }

  lemma FirstPart(contents: Contents, names: seq<Relation>, p: Pgc)
    requires NoDuplicates(names) && names != []
    ensures names[0] in ObjectParts(TablesOf(contents, names), p) <==> Holds(contents(names[0]), p)
    ensures Holds(contents(names[0]), p) ==> AnyHolds(TablesOf(contents, names), p)
  {
    var tables := TablesOf(contents, names);
    TablesHaveNames(contents, names);
    TailNames(tables);
    HoldsIsMember(contents(names[0]), p);
    assert ObjectParts(tables[1..], p).Keys <= Names(tables[1..]);
  }

  // ---- Queries the database refuses ----

  const CZ: Relation := "layer2.cz"
  const NATURE: Relation := "layer2.nature"

  /** The tables of the catalogs a query can be about: the view of all names is not among them. */
  const LAYER2_TABLES: set<Relation> := {DESIGNATION, ICRS, CZ, NATURE}

  /** The tables whose columns a filter names. */
  function Mentioned(f: Filter): set<Relation> {
    match f
    case PgcOneOf(_) => {}
    case And(fs) => MentionedByAny(fs)
    case Or(fs) => MentionedByAny(fs)
    case DesignationEquals(_) => {DESIGNATION}
    case DesignationClose(_) => {DESIGNATION}
    case DesignationLike => {DESIGNATIONS}
    case InRadius(_) => {ICRS}
  }

  function MentionedByAny(fs: seq<Filter>): set<Relation> {
    if fs == [] then {} else Mentioned(fs[0]) + MentionedByAny(fs[1..])
  }

  /**
   * The text is grammatical and every column it names is of a table in its FROM clause; ordering by distance names the
   * positions.
   */
  predicate Accepted(types: seq<Search>, byDistance: bool, names: seq<Relation>) {
    var joined := Elements(FromOrder(QueryDriving(types), names));
    AllWritable(types) && MentionedByAny(FiltersOf(types)) <= joined && (byDistance ==> ICRS in joined)
  }

  /** The parts of a simple query that make filters; `radius` counts only beside a centre. */
  datatype SimpleQuery = SimpleQuery(pgcs: Option<seq<Pgc>>, radius: Option<real>, name: Option<string>)

  function SimpleFilters(q: SimpleQuery): seq<Filter> {
    (if q.pgcs.Some? then [PgcOneOf(q.pgcs.value)] else [])
    + (if q.radius.Some? then [InRadius(q.radius.value)] else [])
    + (if q.name.Some? then [DesignationLike] else [])
  }

  function SimpleTypes(q: SimpleQuery, searchName: string): seq<Search> {
    [Search(searchName, And(SimpleFilters(q)))]
  }

  lemma {:induction false} FirstDrivingAppend(a: seq<Filter>, b: seq<Filter>)
    ensures FirstDriving(a + b) == if FirstDriving(a).Some? then FirstDriving(a) else FirstDriving(b)
    ensures MentionedByAny(a + b) == MentionedByAny(a) + MentionedByAny(b)
  {
    if a == [] {
      assert a + b == b;
    } else {
      assert (a + b)[1..] == a[1..] + b;
      FirstDrivingAppend(a[1..], b);
    }
  }

  lemma SimpleFilterFacts(q: SimpleQuery)
    ensures FirstDriving(SimpleFilters(q)) ==
      if q.radius.Some? then Some(ICRS) else if q.name.Some? then Some(DESIGNATIONS) else None
    ensures MentionedByAny(SimpleFilters(q)) ==
      (if q.radius.Some? then {ICRS} else {}) + (if q.name.Some? then {DESIGNATIONS} else {})
  {
    var a := if q.pgcs.Some? then [PgcOneOf(q.pgcs.value)] else [];
    var b := if q.radius.Some? then [InRadius(q.radius.value)] else [];
    var c := if q.name.Some? then [DesignationLike] else [];
    FirstDrivingAppend(a + b, c);
    FirstDrivingAppend(a, b);
  }

  lemma SimpleTypesFacts(q: SimpleQuery, searchName: string)
    ensures QueryDriving(SimpleTypes(q, searchName)) == FirstDriving(SimpleFilters(q))
    ensures MentionedByAny(FiltersOf(SimpleTypes(q, searchName))) == MentionedByAny(SimpleFilters(q))
  {
    var f := And(SimpleFilters(q));
    assert FiltersOf(SimpleTypes(q, searchName)) == [f];
    assert AllDrive([f][1..], DrivingTable(f));
    assert AllDrive([f], DrivingTable(f)) && [f][0] == f;
    assert DrivingTable(Or([f])) == DrivingTable(f);
    assert DrivingTable(f) == FirstDriving(SimpleFilters(q));
    assert MentionedByAny([f][1..]) == {};
  }

  lemma SimpleWritable(q: SimpleQuery, searchName: string)
    ensures AllWritable(SimpleTypes(q, searchName)) <==> q.pgcs != Some([])
  {
    var fs := SimpleFilters(q);
    var types := SimpleTypes(q, searchName);
    assert types[1..] == [];
    assert AllWritable(types) <==> Writable(And(fs));
    forall f | f in fs ensures Writable(f) <==> f != PgcOneOf([]) {}
    if q.pgcs == Some([]) {
      assert fs[0] == PgcOneOf([]) && fs[0] in fs;
    } else {
      assert PgcOneOf([]) !in fs;
    }
  }

  /** The database refuses a simple query with an empty list of objects, or with a radius and a name but no view of names. */
  lemma SimpleQueryAcceptedIff(q: SimpleQuery, searchName: string, names: seq<Relation>)
    requires NoDuplicates(names)
    ensures Accepted(SimpleTypes(q, searchName), q.radius.Some?, names)
      <==> q.pgcs != Some([]) && !(q.radius.Some? && q.name.Some? && DESIGNATIONS !in names)
  {
    SimpleWritable(q, searchName);
    var driving := QueryDriving(SimpleTypes(q, searchName));
    SimpleFilterFacts(q);
    SimpleTypesFacts(q, searchName);
    FromOrderDistinct(driving, names);
    if driving.Some? && driving.value !in names {
      assert Elements([driving.value] + names) == {driving.value} + Elements(names);
    }
  }

  /** Whatever catalogs it is about, a simple query with both a radius and a name is refused. */
  lemma RadiusAndNameRefused(q: SimpleQuery, searchName: string, names: seq<Relation>)
    requires NoDuplicates(names) && forall n | n in names :: n in LAYER2_TABLES
    ensures Accepted(SimpleTypes(q, searchName), q.radius.Some?, names)
      <==> q.pgcs != Some([]) && !(q.radius.Some? && q.name.Some?)
  {
    SimpleQueryAcceptedIff(q, searchName, names);
    assert DESIGNATIONS !in LAYER2_TABLES;
  }
}

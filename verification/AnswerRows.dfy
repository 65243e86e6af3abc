/** The rows that answer a search, also when its driving table lists an object several times, as the view of names does. */
module AnswerRows {
  import opened Collections
  import opened Schema
  import opened Filters
  import opened Joins
  import opened QueryPlan
  import opened Rendering
  import opened SearchResults
  import opened SearchParameters
  import opened CatalogQuery

  /** The row that a search makes of one entry of its driving table. */
  function EntryRow(search: SearchRow, others: seq<Table>, t: Relation, e: Entry): Joined {
    Joined(Some(search), e.pgc, ObjectParts(others, e.pgc)[t := e.summary])
  }

  /** One row for each entry that the filter accepts. */
  function RowsOfEntries(db: Predicates, f: Filter, search: SearchRow, others: seq<Table>, t: Relation,
                         entries: seq<Entry>): seq<Joined>
  {
    if entries == [] then [] else
      var row := EntryRow(search, others, t, entries[0]);
      (if Eval(db, f, row) == True then [row] else []) + RowsOfEntries(db, f, search, others, t, entries[1..])
  }

  /** A row that some entry of `t` could make. */
  predicate MadeOf(search: SearchRow, others: seq<Table>, t: Relation, row: Joined) {
    && row.search == Some(search) && t in row.parts
    && row.parts - {t} == ObjectParts(others, row.pgc)
  }

  lemma EntryRowIff(search: SearchRow, others: seq<Table>, t: Relation, e: Entry, row: Joined)
    requires t !in Names(others)
    ensures EntryRow(search, others, t, e) == row <==>
      MadeOf(search, others, t, row) && e == Entry(row.pgc, row.parts[t])
  {
    var parts := ObjectParts(others, e.pgc);
    assert t !in parts.Keys;
    assert parts[t := e.summary] - {t} == parts;
    if MadeOf(search, others, t, row) && e == Entry(row.pgc, row.parts[t]) {
      assert parts[t := e.summary] == row.parts;
    }
  }

  lemma {:induction false} RowsOfEntriesCount(db: Predicates, f: Filter, search: SearchRow, others: seq<Table>, t: Relation,
                                              entries: seq<Entry>, row: Joined)
    requires t !in Names(others)
    ensures Count(RowsOfEntries(db, f, search, others, t, entries), row) ==
      if MadeOf(search, others, t, row) && Eval(db, f, row) == True then Count(entries, Entry(row.pgc, row.parts[t])) else 0
  {
    hide MadeOf, EntryRow, Eval;
    if entries != [] {
      RowsOfEntriesCount(db, f, search, others, t, entries[1..], row);
      EntryRowIff(search, others, t, entries[0], row);
      var first := EntryRow(search, others, t, entries[0]);
      CountAppend(if Eval(db, f, first) == True then [first] else [],
        RowsOfEntries(db, f, search, others, t, entries[1..]), row);
    }
  }

  // ---- The joins ----

  lemma AgreeIsMade(search: SearchRow, others: seq<Table>, t: Relation, row: Joined)
    requires DistinctNames(others) && t !in Names(others) && row.search == Some(search)
    ensures t in row.parts && row.parts.Keys <= {t} + Names(others) && Agrees(others, row) <==>
      MadeOf(search, others, t, row)
  {
    hide Agrees;
    var rest := row.(parts := row.parts - {t});
    AgreesWithObject(others, rest);
    AgreesOnParts(others, rest);
    AgreesOnParts(others, row);
    assert row.parts.Keys <= {t} + Names(others) <==> rest.parts.Keys <= Names(others);
  }

  lemma OthersUnique(contents: Contents, names: seq<Relation>, t: Relation) returns (others: seq<Table>)
    requires NoDuplicates(names) && UniqueTables(contents, Others(names, t))
    ensures others == TablesOf(contents, Others(names, t)) && DistinctNames(others) && t !in Names(others)
    ensures forall x | x in others :: Unique(x)
  {
    others := TablesOf(contents, Others(names, t));
    OthersKeep(names, t);
    TablesHaveNames(contents, Others(names, t));
    TablesUnique(contents, Others(names, t));
  }

  /** The driving table beside tables unique per object: one row for each of its entries. */
  lemma DrivenCount(contents: Contents, search: SearchRow, t: Relation, names: seq<Relation>, row: Joined)
    requires NoDuplicates(names) && names != [] && UniqueTables(contents, Others(names, t))
    ensures Count(Emitted(contents, [search], Some(t), names), row) ==
      if MadeOf(search, TablesOf(contents, Others(names, t)), t, row)
      then Count(contents(t), Entry(row.pgc, row.parts[t])) else 0
  {
    hide Emitted, Multiplicity, Agrees, MadeOf, CrossJoin, Scan;
    var others := OthersUnique(contents, names, t);
    if row.search.None? {
      UnsearchedCount(contents, [search], Some(t), names, row);
      UnsearchedNotMade(search, others, t, row);
    } else {
      var tables := FromOrderTables(contents, Some(t), names);
      FirstIsDriving(contents, t, names);
      JoinedCount(contents, [search], Some(t), names, tables, row);
      SearchedCount([search], tables[0], Names(others), row);
      MultiplicityOfUnique(others, row);
      OneSearch(search, row.search.value);
      if row.search == Some(search) {
        AgreeIsMade(search, others, t, row);
      } else {
        UnsearchedNotMade(search, others, t, row);
      }
    }
  }

  lemma FirstIsDriving(contents: Contents, t: Relation, names: seq<Relation>)
    ensures var tables := TablesOf(contents, FromOrder(Some(t), names));
      tables != [] && tables[0] == Table(t, contents(t)) && tables[1..] == TablesOf(contents, Others(names, t))
  {
    assert FromOrder(Some(t), names)[1..] == Others(names, t);
  }

  lemma OneSearch(search: SearchRow, other: SearchRow)
    ensures Count([search], other) == if other == search then 1 else 0
  {}

  lemma UnsearchedNotMade(search: SearchRow, others: seq<Table>, t: Relation, row: Joined)
    requires row.search != Some(search)
    ensures !MadeOf(search, others, t, row)
  {}

  /**
   * With a driving table, of whatever multiplicity, the answer is as a bag one row for each of its entries that the
   * filter accepts, beside all that the other tables say about the entry's object.
   */
  lemma AnswerIsEntries(db: Predicates, contents: Contents, p: SearchParams, f: Filter, t: Relation, names: seq<Relation>)
    requires Writable(f) && NoDuplicates(names) && names != [] && DrivingTable(f) == Some(t)
    requires UniqueTables(contents, Others(names, t))
    ensures multiset(Answer(db, contents, p, f, names)) ==
      multiset(RowsOfEntries(db, f, SearchOf(p), TablesOf(contents, Others(names, t)), t, contents(t)))
  {
    hide Emitted, SelectedByText, EvalText, Eval, MadeOf, RowsOfEntries;
    var others := OthersUnique(contents, names, t);
    var types, search := TypesOf(p, f), SearchOf(p);
    var rows := RowsOfEntries(db, f, search, others, t, contents(t));
    OneFilterDrives(p, f);
    forall row ensures Count(Answer(db, contents, p, f, names), row) == Count(rows, row) {
      SelectedByTextCount(db, types, Emitted(contents, [search], Some(t), names), row);
      DrivenCount(contents, search, t, names, row);
      RowsOfEntriesCount(db, f, search, others, t, contents(t), row);
      if row.search == Some(search) {
        SingleTextMeansFilter(db, types[0], row);
      } else {
        UnsearchedNotMade(search, others, t, row);
      }
    }
    SameCounts(Answer(db, contents, p, f, names), rows);
  }

  // ---- Searches by name ----

  function NameFilter(): Filter {
    And(SimpleFilters(SimpleQuery(None, None, Some(""))))
  }

  function Named(name: string): SearchParams {
    CombinedParams([DesignationParams(name)])
  }

  /** The names in the view that match the pattern of the search. */
  predicate NameMatches(db: Predicates, name: string, e: Entry) {
    e.summary.Voted? && db.like(e.summary.text, "%" + name + "%")
  }

  /** How many names of an object match. */
  function MatchingNames(db: Predicates, name: string, entries: seq<Entry>, p: Pgc): nat {
    if entries == [] then 0 else
      (if entries[0].pgc == p && NameMatches(db, name, entries[0]) then 1 else 0)
      + MatchingNames(db, name, entries[1..], p)
  }

  function RowsOf(rows: seq<Joined>, p: Pgc): nat {
    if rows == [] then 0 else (if rows[0].pgc == p then 1 else 0) + RowsOf(rows[1..], p)
  }

  lemma NamedParams(name: string)
    ensures GetParams(Named(name)) == Params(None, None, Some(name))
  {
    var parts := [DesignationParams(name)];
    assert parts[1..] == [];
    assert MergedParams(parts) == Update(GetParams(parts[0]), MergedParams(parts[1..]));
  }

  lemma NameMeans(db: Predicates, name: string, others: seq<Table>, e: Entry)
    ensures DrivingTable(NameFilter()) == Some(DESIGNATIONS) && Writable(NameFilter())
    ensures Eval(db, NameFilter(), EntryRow(SearchOf(Named(name)), others, DESIGNATIONS, e)) == True <==>
      NameMatches(db, name, e)
  {
    hide ObjectParts;
    NamedParams(name);
    SimpleFilterFacts(SimpleQuery(None, None, Some("")));
    var fs := SimpleFilters(SimpleQuery(None, None, Some("")));
    var row := EntryRow(SearchOf(Named(name)), others, DESIGNATIONS, e);
    assert fs == [DesignationLike] && fs[1..] == [];
    assert EvalAnd(db, fs, row) == Both(Eval(db, fs[0], row), EvalAnd(db, fs[1..], row));
    assert Eval(db, fs[0], row) == EvalLeaf(db, DesignationLike, row);
    assert row.parts[DESIGNATIONS] == e.summary;
  }

  lemma {:induction false} RowsAppend(a: seq<Joined>, b: seq<Joined>, p: Pgc)
    ensures RowsOf(a + b, p) == RowsOf(a, p) + RowsOf(b, p)
  {
    if a == [] {
      assert a + b == b;
    } else {
      assert (a + b)[1..] == a[1..] + b;
      RowsAppend(a[1..], b, p);
    }
  }

  lemma {:induction false} NameRowsCount(db: Predicates, name: string, others: seq<Table>, entries: seq<Entry>, p: Pgc)
    ensures RowsOf(RowsOfEntries(db, NameFilter(), SearchOf(Named(name)), others, DESIGNATIONS, entries), p) ==
      MatchingNames(db, name, entries, p)
  {
    hide Eval, NameMatches, NameFilter;
    if entries != [] {
      NameRowsCount(db, name, others, entries[1..], p);
      NameMeans(db, name, others, entries[0]);
      var row := EntryRow(SearchOf(Named(name)), others, DESIGNATIONS, entries[0]);
      var first := if Eval(db, NameFilter(), row) == True then [row] else [];
      RowsAppend(first, RowsOfEntries(db, NameFilter(), SearchOf(Named(name)), others, DESIGNATIONS, entries[1..]), p);
      OneRow(row, p);
    }
  }

  lemma OneRow(row: Joined, p: Pgc)
    ensures RowsOf([row], p) == if row.pgc == p then 1 else 0
  {
    assert RowsOf([], p) == 0 && [row][1..] == [];
  }

  lemma RowsWithout(rows: seq<Joined>, i: nat, p: Pgc)
    requires i < |rows|
    ensures RowsOf(rows, p) == RowsOf([rows[i]], p) + RowsOf(Without(rows, i), p)
  {
    assert rows == rows[..i] + ([rows[i]] + rows[i + 1..]);
    RowsAppend(rows[..i], [rows[i]] + rows[i + 1..], p);
    RowsAppend([rows[i]], rows[i + 1..], p);
    RowsAppend(rows[..i], rows[i + 1..], p);
  }

  lemma {:induction false} RowsIgnoreOrder(a: seq<Joined>, b: seq<Joined>, p: Pgc)
    requires multiset(a) == multiset(b)
    ensures RowsOf(a, p) == RowsOf(b, p)
  {
    if a == [] {
      assert |b| == |multiset(b)| == 0;
    } else {
      var i := MatchFirst(a, b);
      RowsWithout(a, 0, p);
      RowsWithout(b, i, p);
      RowsIgnoreOrder(Without(a, 0), Without(b, i), p);
    }
  }

  /** A search by name answers with an object once for each of its names that match. */
  lemma NameSearchCounts(db: Predicates, contents: Contents, name: string, names: seq<Relation>, p: Pgc)
    requires NoDuplicates(names) && names != [] && UniqueTables(contents, Others(names, DESIGNATIONS))
    ensures RowsOf(Answer(db, contents, Named(name), NameFilter(), names), p) ==
      MatchingNames(db, name, contents(DESIGNATIONS), p)
  {
    hide Answer, RowsOfEntries, NameFilter;
    var others := TablesOf(contents, Others(names, DESIGNATIONS));
    NameMeans(db, name, others, Entry(p, Voted("")));
    AnswerIsEntries(db, contents, Named(name), NameFilter(), DESIGNATIONS, names);
    var rows := RowsOfEntries(db, NameFilter(), SearchOf(Named(name)), others, DESIGNATIONS, contents(DESIGNATIONS));
    NameRowsCount(db, name, others, contents(DESIGNATIONS), p);
    RowsIgnoreOrder(Answer(db, contents, Named(name), NameFilter(), names), rows, p);
  }
}

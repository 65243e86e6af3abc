/** `query_catalogs` from its filter to the rows that answer it. */
module CatalogQuery {
  import opened Collections
  import opened Filters
  import opened Joins
  import opened QueryPlan
  import opened Rendering
  import opened SearchResults
  import opened SearchParameters

  /** The one search of the query, under its own name. */
  function SearchOf(p: SearchParams): SearchRow {
    SearchRow("obj", Name(p), GetParams(p))
  }

  function TypesOf(p: SearchParams, f: Filter): seq<Search> {
    [Search(Name(p), f)]
  }

  /** The rows the WHERE text selects, read as the database reads it. */
  function SelectedByText(db: Predicates, types: seq<Search>, rows: seq<Joined>): seq<Joined>
    requires types != []
  {
    if rows == [] then [] else
      (if EvalText(db, types, rows[0]) == True then [rows[0]] else []) + SelectedByText(db, types, rows[1..])
  }

  lemma {:induction false} SelectedByTextCount(db: Predicates, types: seq<Search>, rows: seq<Joined>, row: Joined)
    requires types != []
    ensures Count(SelectedByText(db, types, rows), row) ==
      if EvalText(db, types, row) == True then Count(rows, row) else 0
  {
    hide EvalText;
    if rows != [] {
      SelectedByTextCount(db, types, rows[1..], row);
      CountAppend(if EvalText(db, types, rows[0]) == True then [rows[0]] else [], SelectedByText(db, types, rows[1..]), row);
    }
  }

  // ---- Several search types ----

  /** Without a top-level OR the text selects the rows it is meant to. */
  lemma {:induction false} TextSelects(db: Predicates, types: seq<Search>, rows: seq<Joined>)
    requires types != [] && AllWritable(types) && NoLoose(types)
    ensures SelectedByText(db, types, rows) == Where(db, types, rows)
  {
    hide EvalText, EvalSearches;
    if rows != [] {
      TextMeansSearches(db, types, rows[0]);
      TextSelects(db, types, rows[1..]);
    }
  }

  /** Operands that escape the test of their search type still need the driving table. */
  lemma {:induction false} LeaksNeedDriving(db: Predicates, types: seq<Search>, row: Joined, table: Relation)
    requires AllDrive(FiltersOf(types), Some(table)) && table !in row.parts
    ensures !Leaks(db, types, row)
  {
    if types != [] {
      assert FiltersOf(types)[1..] == FiltersOf(types[1..]);
      LeaksNeedDriving(db, types[1..], row, table);
      var f := types[0].filter;
      if Loose(f) != [] {
        assert AllDrive(f.filters, DrivingTable(f));
        AllDriveSound(db, Loose(f), row, table);
      }
    }
  }

  lemma TextNeedsDriving(db: Predicates, types: seq<Search>, row: Joined)
    requires types != [] && AllWritable(types) && QueryDriving(types).Some? && QueryDriving(types).value !in row.parts
    ensures EvalText(db, types, row) != True
  {
    TextTrueIff(db, types, row);
    QueryDrivingSound(db, types, row);
    LeaksNeedDriving(db, types, row, QueryDriving(types).value);
  }

  lemma UnsearchedInLeftJoins(values: seq<SearchRow>, tables: seq<Table>, row: Joined)
    requires tables != [] && DistinctNames(tables) && row.search.None?
    ensures Count(LeftJoins(CrossJoin(values, Scan(tables[0].name, tables[0].entries)), tables[1..]), row) == 0
  {
    hide LeftJoins, CrossJoin, Multiplicity;
    var t, rest := tables[0], tables[1..];
    TailNames(tables);
    CrossScanLacks(values, t, Names(rest));
    LeftJoinsCount(CrossJoin(values, Scan(t.name, t.entries)), rest, row);
    NoSearchYet(t.name, t.entries);
    CrossJoinCount(values, Scan(t.name, t.entries), Drop(row, Names(rest)));
  }

  /** Every row of a driven query has a search. */
  lemma UnsearchedCount(contents: Contents, values: seq<SearchRow>, driving: Option<Relation>, names: seq<Relation>,
                        row: Joined)
    requires NoDuplicates(names) && names != [] && driving.Some? && row.search.None?
    ensures Count(Emitted(contents, values, driving, names), row) == 0
    ensures Count(Intended(contents, values, driving, names), row) == 0
  {
    hide LeftJoins, CrossJoin, FullJoinOf, TablesOf, FromOrder, Subject;
    var tables := FromOrderTables(contents, driving, names);
    UnsearchedInLeftJoins(values, tables, row);
    var subject := TablesOf(contents, Subject(driving, names));
    FromOrderDistinct(driving, names);
    TablesHaveNames(contents, Subject(driving, names));
    NoSearchInFullJoin(subject);
    CrossJoinCount(values, FullJoinOf(subject), row);
  }

  /**
   * Any filters, any number of search types, top-level ORs included: with a driving table the WHERE text selects the
   * same bag of rows from the LEFT JOINs as from the FULL JOIN of all the tables.
   */
  lemma WrittenRewritingSound(db: Predicates, types: seq<Search>, contents: Contents, values: seq<SearchRow>,
                              names: seq<Relation>)
    requires NoDuplicates(names) && names != [] && types != [] && AllWritable(types) && QueryDriving(types).Some?
    ensures multiset(SelectedByText(db, types, Emitted(contents, values, QueryDriving(types), names))) ==
      multiset(SelectedByText(db, types, Intended(contents, values, QueryDriving(types), names)))
  {
    hide Emitted, Intended, EvalText, SelectedByText;
    var driving := QueryDriving(types);
    var emitted, intended := Emitted(contents, values, driving, names), Intended(contents, values, driving, names);
    forall row ensures Count(SelectedByText(db, types, emitted), row) == Count(SelectedByText(db, types, intended), row) {
      SelectedByTextCount(db, types, emitted, row);
      SelectedByTextCount(db, types, intended, row);
      if row.search.None? {
        UnsearchedCount(contents, values, driving, names, row);
      } else if driving.value !in row.parts {
        TextNeedsDriving(db, types, row);
      } else {
        EmittedCount(contents, values, driving, names, row);
      }
    }
    SameCounts(SelectedByText(db, types, emitted), SelectedByText(db, types, intended));
  }

  // ---- One search ----

  lemma OneFilterDrives(p: SearchParams, f: Filter)
    ensures QueryDriving(TypesOf(p, f)) == DrivingTable(f)
  {
    assert FiltersOf(TypesOf(p, f)) == [f];
    assert AllDrive([f][1..], DrivingTable(f));
    assert AllDrive([f], DrivingTable([f][0]));
  }

  /** The rows of `query_catalogs`: the joins and the WHERE text its filter becomes. */
  function Answer(db: Predicates, contents: Contents, p: SearchParams, f: Filter, names: seq<Relation>): seq<Joined>
    requires names != []
  {
    SelectedByText(db, TypesOf(p, f), Emitted(contents, [SearchOf(p)], QueryDriving(TypesOf(p, f)), names))
  }

  /**
   * Whatever the filter tree, the answer of the search is what its meaning selects from the intended join, less the
   * objects that the first table of the FROM clause lacks.
   */
  lemma AnswerCount(db: Predicates, contents: Contents, p: SearchParams, f: Filter, names: seq<Relation>, row: Joined)
    requires Writable(f) && NoDuplicates(names) && names != [] && row.search == Some(SearchOf(p))
    ensures Count(Answer(db, contents, p, f, names), row) ==
      if Eval(db, f, row) == True && FirstTable(DrivingTable(f), names) in row.parts
      then Count(Intended(contents, [SearchOf(p)], DrivingTable(f), names), row) else 0
  {
    hide Emitted, Intended, EvalText, Eval, SelectedByText;
    var driving := DrivingTable(f);
    var types := TypesOf(p, f);
    OneFilterDrives(p, f);
    SelectedByTextCount(db, types, Emitted(contents, [SearchOf(p)], driving, names), row);
    SingleTextMeansFilter(db, types[0], row);
    EmittedCount(contents, [SearchOf(p)], driving, names, row);
  }

  /** From tables unique per object: each object that the filter accepts and the first table knows, once, whole. */
  lemma AnswerIsExact(db: Predicates, contents: Contents, p: SearchParams, f: Filter, names: seq<Relation>, row: Joined)
    requires Writable(f) && NoDuplicates(names) && names != [] && row.search == Some(SearchOf(p))
    requires UniqueTables(contents, Subject(DrivingTable(f), names))
    ensures var tables := TablesOf(contents, Subject(DrivingTable(f), names));
      Count(Answer(db, contents, p, f, names), row) ==
        if row == FoundRow(SearchOf(p), tables, row.pgc) && Eval(db, f, row) == True
          && FirstTable(DrivingTable(f), names) in row.parts
        then 1 else 0
  {
    hide Answer, Intended, ObjectParts, AnyHolds, Eval, UniqueTables;
    var driving := DrivingTable(f);
    AnswerCount(db, contents, p, f, names, row);
    IntendedOnce(contents, SearchOf(p), driving, names, row);
    PartsFound(TablesOf(contents, Subject(driving, names)), row.pgc);
  }

  /** With a driving table the answer is the objects the filter accepts, no more and no less. */
  lemma DrivenAnswerIsExact(db: Predicates, contents: Contents, p: SearchParams, f: Filter, names: seq<Relation>,
                            row: Joined)
    requires Writable(f) && NoDuplicates(names) && names != []
    requires row.search == Some(SearchOf(p)) && DrivingTable(f).Some?
    requires UniqueTables(contents, Subject(DrivingTable(f), names))
    ensures var tables := TablesOf(contents, Subject(DrivingTable(f), names));
      Count(Answer(db, contents, p, f, names), row) ==
        if row == FoundRow(SearchOf(p), tables, row.pgc) && Eval(db, f, row) == True then 1 else 0
  {
    hide Answer, Eval, ObjectParts, UniqueTables;
    AnswerIsExact(db, contents, p, f, names, row);
    if DrivingTable(f).value !in row.parts {
      DrivingTableSound(db, f, row);
    }
  }
}

/** The rows a batch query selects: the joins its text spells out against the joins it stands for. */
module QueryPlan {
  import opened Collections
  import opened Filters
  import opened Joins

  /** What every layer-2 table holds. */
  type Contents = Relation -> seq<Entry>

  function TablesOf(contents: Contents, names: seq<Relation>): seq<Table> {
    if names == [] then [] else [Table(names[0], contents(names[0]))] + TablesOf(contents, names[1..])
  }

  function Others(names: seq<Relation>, driving: Relation): seq<Relation> {
    if names == [] then []
    else if names[0] == driving then Others(names[1..], driving)
    else [names[0]] + Others(names[1..], driving)
  }

  /** The tables of the FROM clause, in its order. */
  function FromOrder(driving: Option<Relation>, names: seq<Relation>): seq<Relation> {
    if driving.Some? then [driving.value] + Others(names, driving.value) else names
  }

  /**
   * The FROM clause of `_construct_batch_query`. A join without parentheses groups from the left, so the first
   * table meets the search parameters before any other table is joined.
   */
  function Emitted(contents: Contents, values: seq<SearchRow>, driving: Option<Relation>, names: seq<Relation>)
    : seq<Joined>
    requires names != []
  {
    var tables := TablesOf(contents, FromOrder(driving, names));
    var first := CrossJoin(values, Scan(tables[0].name, tables[0].entries));
    if driving.Some? then LeftJoins(first, tables[1..]) else FullJoins(first, tables[1..])
  }

  /** The tables a query is about: the requested ones, and the one its filters depend on. */
  function Subject(driving: Option<Relation>, names: seq<Relation>): seq<Relation> {
    if driving.Some? && driving.value !in names then [driving.value] + names else names
  }

  /** What the query stands for: every search beside every object of the full join. */
  function Intended(contents: Contents, values: seq<SearchRow>, driving: Option<Relation>, names: seq<Relation>)
    : seq<Joined>
  {
    CrossJoin(values, FullJoinOf(TablesOf(contents, Subject(driving, names))))
  }

  function Where(db: Predicates, types: seq<Search>, rows: seq<Joined>): seq<Joined> {
    if rows == [] then [] else
      (if EvalSearches(db, types, rows[0]) == True then [rows[0]] else []) + Where(db, types, rows[1..])
  }

  // ---- Counting ----

  lemma {:induction false} AttachCount(search: SearchRow, rows: seq<Joined>, row: Joined)
    requires forall r | r in rows :: r.search.None?
    ensures Count(Attach(search, rows), row) ==
      if row.search == Some(search) then Count(rows, row.(search := None)) else 0
  {
    if rows != [] {
      assert rows[0] in rows;
      assert forall r | r in rows[1..] :: r in rows;
      AttachCount(search, rows[1..], row);
      assert rows[0].(search := Some(search)) == row <==> row.search == Some(search) && rows[0] == row.(search := None);
    }
  }

  lemma {:induction false} CrossJoinCount(values: seq<SearchRow>, rows: seq<Joined>, row: Joined)
    requires forall r | r in rows :: r.search.None?
    ensures Count(CrossJoin(values, rows), row) ==
      if row.search.Some? then Count(values, row.search.value) * Count(rows, row.(search := None)) else 0
  {
    if values != [] {
      AttachCount(values[0], rows, row);
      CrossJoinCount(values[1..], rows, row);
      CountAppend(Attach(values[0], rows), CrossJoin(values[1..], rows), row);
      if row.search.Some? {
        Distribute(if values[0] == row.search.value then 1 else 0, Count(values[1..], row.search.value),
          Count(rows, row.(search := None)));
      }
    }
  }

  lemma NoSearchYet(t: Relation, entries: seq<Entry>)
    ensures forall r | r in Scan(t, entries) :: r.search.None?
  {
    forall r | r in Scan(t, entries) ensures r.search.None? {
      CountMember(Scan(t, entries), r);
      ScanCount(t, entries, r);
    }
  }

  lemma NoSearchInFullJoin(tables: seq<Table>)
    requires DistinctNames(tables)
    ensures forall r | r in FullJoinOf(tables) :: r.search.None?
  {
    forall r | r in FullJoinOf(tables) ensures r.search.None? {
      CountMember(FullJoinOf(tables), r);
      FullJoinOfCount(tables, r);
    }
  }

  lemma {:induction false} WhereCount(db: Predicates, types: seq<Search>, rows: seq<Joined>, row: Joined)
    ensures Count(Where(db, types, rows), row) == if EvalSearches(db, types, row) == True then Count(rows, row) else 0
  {
    if rows != [] {
      WhereCount(db, types, rows[1..], row);
      CountAppend(if EvalSearches(db, types, rows[0]) == True then [rows[0]] else [], Where(db, types, rows[1..]), row);
    }
  }

  /** A full join changes the rows that carry a search exactly as a left join does. */
  lemma FullJoinSearched(rows: seq<Joined>, t: Table, row: Joined)
    requires row.search.Some? && Lacks(rows, {t.name})
    ensures Count(FullJoin(rows, t), row) == Count(rows, Drop(row, {t.name})) * EntryCount(t, row)
  {
    LeftJoinCount(rows, t, row);
    UnmatchedCount(rows, t.name, t.entries, row);
    CountAppend(LeftJoin(rows, t), Unmatched(rows, t.name, t.entries), row);
  }

  lemma FullJoinKeepsLack(rows: seq<Joined>, t: Table, names: set<Relation>)
    requires Lacks(rows, names) && t.name !in names
    ensures Lacks(FullJoin(rows, t), names)
  {
    LeftJoinLacks(rows, t, names);
    UnmatchedLacks(rows, t.name, t.entries, names);
  }

  lemma {:induction false} FullJoinsSearched(rows: seq<Joined>, tables: seq<Table>, row: Joined)
    requires row.search.Some? && DistinctNames(tables) && Lacks(rows, Names(tables))
    ensures Count(FullJoins(rows, tables), row) == Count(rows, Drop(row, Names(tables))) * Multiplicity(tables, row)
    decreases |tables|
  {
    if tables == [] {
      assert Drop(row, {}) == row;
      assert Names(tables) == {};
    } else {
      var t, rest := tables[0], tables[1..];
      TailNames(tables);
      FewerLacks(rows, Names(tables), {t.name});
      FewerLacks(rows, Names(tables), Names(rest));
      FullJoinKeepsLack(rows, t, Names(rest));
      FullJoinsSearched(FullJoin(rows, t), rest, row);
      var dropped := Drop(row, Names(rest));
      FullJoinSearched(rows, t, dropped);
      assert Drop(dropped, {t.name}) == Drop(row, Names(tables));
      assert EntryCount(t, dropped) == EntryCount(t, row);
      Associate(Count(rows, Drop(row, Names(tables))), EntryCount(t, row), Multiplicity(rest, row));
    }
  }

  lemma {:induction false} UnmatchedLacks(rows: seq<Joined>, t: Relation, entries: seq<Entry>, names: set<Relation>)
    requires t !in names
    ensures Lacks(Unmatched(rows, t, entries), names)
  {
    if entries != [] {
      UnmatchedLacks(rows, t, entries[1..], names);
    }
  }

  // ---- Orders of tables ----

  lemma {:induction false} TablesHaveNames(contents: Contents, names: seq<Relation>)
    requires NoDuplicates(names)
    ensures var tables := TablesOf(contents, names);
      && |tables| == |names| && DistinctNames(tables)
      && Names(tables) == Elements(names)
      && forall i | 0 <= i < |names| :: tables[i] == Table(names[i], contents(names[i]))
  {
    if names != [] {
      var tables := TablesOf(contents, names);
      TablesHaveNames(contents, names[1..]);
      assert forall i | 0 < i < |names| ::
        tables[i] == TablesOf(contents, names[1..])[i - 1] && names[i] == names[1..][i - 1];
      assert Elements(names) == {names[0]} + Elements(names[1..]);
      assert forall t :: t in tables <==> t == tables[0] || t in TablesOf(contents, names[1..]);
    }
  }

  lemma {:induction false} OthersKeep(names: seq<Relation>, driving: Relation)
    requires NoDuplicates(names)
    ensures NoDuplicates(Others(names, driving))
    ensures Elements(Others(names, driving)) == Elements(names) - {driving}
  {
    if names != [] {
      OthersKeep(names[1..], driving);
      assert Elements(names) == {names[0]} + Elements(names[1..]);
      var rest := Others(names[1..], driving);
      if names[0] != driving {
        assert names[0] !in names[1..];
        assert names[0] !in Elements(rest);
        assert Elements([names[0]] + rest) == {names[0]} + Elements(rest);
      }
    }
  }

  /** A table can be taken to the front. */
  lemma {:induction false} MultiplicityOfOthers(contents: Contents, names: seq<Relation>, driving: Relation, row: Joined)
    requires NoDuplicates(names)
    ensures var others := Multiplicity(TablesOf(contents, Others(names, driving)), row);
      Multiplicity(TablesOf(contents, names), row) ==
        if driving in names then EntryCount(Table(driving, contents(driving)), row) * others else others
  {
    if names != [] {
      MultiplicityOfOthers(contents, names[1..], driving, row);
      var others := Multiplicity(TablesOf(contents, Others(names[1..], driving)), row);
      var own := EntryCount(Table(names[0], contents(names[0])), row);
      if names[0] == driving {
        assert driving !in names[1..];
      } else {
        var front := TablesOf(contents, Others(names, driving));
        assert front[1..] == TablesOf(contents, Others(names[1..], driving));
        if driving in names[1..] {
          Swap(own, EntryCount(Table(driving, contents(driving)), row), others);
        }
      }
    }
  }

  lemma Swap(a: nat, b: nat, c: nat)
    ensures a * (b * c) == b * (a * c)
  {
  }

  lemma FromOrderDistinct(driving: Option<Relation>, names: seq<Relation>)
    requires NoDuplicates(names)
    ensures NoDuplicates(FromOrder(driving, names)) && NoDuplicates(Subject(driving, names))
    ensures Elements(FromOrder(driving, names)) == Elements(Subject(driving, names))
  {
    if driving.Some? {
      OthersKeep(names, driving.value);
      var others := Others(names, driving.value);
      assert driving.value !in Elements(others);
      assert Elements([driving.value] + others) == {driving.value} + Elements(others);
      assert Elements([driving.value] + names) == {driving.value} + Elements(names);
    }
  }

  lemma FromOrderMultiplicity(contents: Contents, driving: Option<Relation>, names: seq<Relation>, row: Joined)
    requires NoDuplicates(names)
    ensures Multiplicity(TablesOf(contents, FromOrder(driving, names)), row) ==
      Multiplicity(TablesOf(contents, Subject(driving, names)), row)
  {
    if driving.Some? {
      MultiplicityOfOthers(contents, names, driving.value, row);
    }
  }

  // ---- The main results ----

  /** The table that every selected object must be in. */
  function FirstTable(driving: Option<Relation>, names: seq<Relation>): Relation
    requires names != []
  {
    if driving.Some? then driving.value else names[0]
  }

  lemma IntendedCount(contents: Contents, values: seq<SearchRow>, driving: Option<Relation>, names: seq<Relation>,
                      row: Joined)
    requires NoDuplicates(names) && row.search.Some?
    ensures Count(Intended(contents, values, driving, names), row) ==
      Count(values, row.search.value) * FullCount(TablesOf(contents, Subject(driving, names)), row.(search := None))
  {
    var tables := TablesOf(contents, Subject(driving, names));
    FromOrderDistinct(driving, names);
    TablesHaveNames(contents, Subject(driving, names));
    NoSearchInFullJoin(tables);
    CrossJoinCount(values, FullJoinOf(tables), row);
    FullJoinOfCount(tables, row.(search := None));
  }

  lemma CrossScanLacks(values: seq<SearchRow>, t: Table, names: set<Relation>)
    requires t.name !in names
    ensures Lacks(CrossJoin(values, Scan(t.name, t.entries)), names)
  {
    var rows := CrossJoin(values, Scan(t.name, t.entries));
    NoSearchYet(t.name, t.entries);
    forall r | r in rows ensures r.parts.Keys !! names {
      CountMember(rows, r);
      CrossJoinCount(values, Scan(t.name, t.entries), r);
      ScanCount(t.name, t.entries, r.(search := None));
    }
  }

  /** What the emitted joins make of a search beside the first table. */
  lemma SearchedCount(values: seq<SearchRow>, t: Table, others: set<Relation>, row: Joined)
    requires row.search.Some? && t.name !in others
    ensures Count(CrossJoin(values, Scan(t.name, t.entries)), Drop(row, others)) ==
      if t.name in row.parts.Keys && row.parts.Keys <= {t.name} + others
      then Count(values, row.search.value) * EntryCount(t, row) else 0
  {
    var d := Drop(row, others);
    NoSearchYet(t.name, t.entries);
    CrossJoinCount(values, Scan(t.name, t.entries), d);
    ScanCount(t.name, t.entries, d.(search := None));
    assert d.parts.Keys == row.parts.Keys - others;
    assert d.parts.Keys == {t.name} <==> t.name in row.parts.Keys && row.parts.Keys <= {t.name} + others;
  }

  lemma FromOrderTables(contents: Contents, driving: Option<Relation>, names: seq<Relation>) returns (tables: seq<Table>)
    requires NoDuplicates(names) && names != []
    ensures tables == TablesOf(contents, FromOrder(driving, names)) && tables != []
    ensures DistinctNames(tables) && tables[0].name == FirstTable(driving, names)
    ensures Names(tables) == Names(TablesOf(contents, Subject(driving, names)))
    ensures DistinctNames(tables[1..]) && tables[0].name !in Names(tables[1..])
    ensures Names(tables) == {tables[0].name} + Names(tables[1..])
  {
    tables := TablesOf(contents, FromOrder(driving, names));
    FromOrderDistinct(driving, names);
    TablesHaveNames(contents, FromOrder(driving, names));
    TablesHaveNames(contents, Subject(driving, names));
    TailNames(tables);
  }

  lemma JoinedCount(contents: Contents, values: seq<SearchRow>, driving: Option<Relation>, names: seq<Relation>,
                    tables: seq<Table>, row: Joined)
    requires NoDuplicates(names) && names != [] && row.search.Some?
    requires tables == TablesOf(contents, FromOrder(driving, names))
    requires tables != [] && DistinctNames(tables[1..]) && tables[0].name !in Names(tables[1..])
    ensures Count(Emitted(contents, values, driving, names), row) ==
      Count(CrossJoin(values, Scan(tables[0].name, tables[0].entries)), Drop(row, Names(tables[1..])))
        * Multiplicity(tables[1..], row)
  {
    var first := CrossJoin(values, Scan(tables[0].name, tables[0].entries));
    CrossScanLacks(values, tables[0], Names(tables[1..]));
    if driving.Some? {
      LeftJoinsCount(first, tables[1..], row);
    } else {
      FullJoinsSearched(first, tables[1..], row);
    }
  }

  /** Row by row, the emitted joins are the intended ones without the objects the first table lacks. */
  lemma EmittedCount(contents: Contents, values: seq<SearchRow>, driving: Option<Relation>, names: seq<Relation>,
                     row: Joined)
    requires NoDuplicates(names) && names != [] && row.search.Some?
    ensures Count(Emitted(contents, values, driving, names), row) ==
      if FirstTable(driving, names) in row.parts then Count(Intended(contents, values, driving, names), row) else 0
  {
    hide Emitted, Intended, Multiplicity, TablesOf, EntryCount;
    var tables := FromOrderTables(contents, driving, names);
    var t, rest := tables[0], tables[1..];
    var subject := TablesOf(contents, Subject(driving, names));
    JoinedCount(contents, values, driving, names, tables, row);
    SearchedCount(values, t, Names(rest), row);
    IntendedCount(contents, values, driving, names, row);
    FromOrderMultiplicity(contents, driving, names, row);
    Unfold(tables, row);
    SameMultiplicity(subject, row);
    Associate(Count(values, row.search.value), EntryCount(t, row), Multiplicity(rest, row));
  }

  lemma Unfold(tables: seq<Table>, row: Joined)
    requires tables != []
    ensures Multiplicity(tables, row) == EntryCount(tables[0], row) * Multiplicity(tables[1..], row)
  {
  }

  lemma {:induction false} SameMultiplicity(tables: seq<Table>, row: Joined)
    ensures Multiplicity(tables, row.(search := None)) == Multiplicity(tables, row)
  {
    if tables != [] {
      SameMultiplicity(tables[1..], row);
    }
  }

  lemma {:induction false} UnsearchedIsNotTrue(db: Predicates, types: seq<Search>, row: Joined)
    requires row.search.None?
    ensures EvalSearches(db, types, row) != True
  {
    if types != [] {
      UnsearchedIsNotTrue(db, types[1..], row);
    }
  }

  function InFirst(rows: seq<Joined>, table: Relation): seq<Joined> {
    if rows == [] then [] else (if table in rows[0].parts then [rows[0]] else []) + InFirst(rows[1..], table)
  }

  lemma {:induction false} InFirstCount(rows: seq<Joined>, table: Relation, row: Joined)
    ensures Count(InFirst(rows, table), row) == if table in row.parts then Count(rows, row) else 0
  {
    if rows != [] {
      InFirstCount(rows[1..], table, row);
      CountAppend(if table in rows[0].parts then [rows[0]] else [], InFirst(rows[1..], table), row);
    }
  }

  /** A query selects the intended rows whose object is in the first table of its FROM clause. */
  lemma SelectedRows(db: Predicates, types: seq<Search>, contents: Contents, values: seq<SearchRow>,
                     driving: Option<Relation>, names: seq<Relation>)
    requires NoDuplicates(names) && names != []
    ensures multiset(Where(db, types, Emitted(contents, values, driving, names))) ==
      multiset(InFirst(Where(db, types, Intended(contents, values, driving, names)), FirstTable(driving, names)))
  {
    var emitted, intended := Emitted(contents, values, driving, names), Intended(contents, values, driving, names);
    var first := FirstTable(driving, names);
    forall row ensures Count(Where(db, types, emitted), row) == Count(InFirst(Where(db, types, intended), first), row) {
      WhereCount(db, types, emitted, row);
      WhereCount(db, types, intended, row);
      InFirstCount(Where(db, types, intended), first, row);
      if row.search.None? {
        UnsearchedIsNotTrue(db, types, row);
      } else {
        EmittedCount(contents, values, driving, names, row);
      }
    }
    SameCounts(Where(db, types, emitted), InFirst(Where(db, types, intended), first));
  }

  /** LEFT JOINs onto the driving table select what the FULL JOIN of all the tables would. */
  lemma JoinRewritingSound(db: Predicates, types: seq<Search>, contents: Contents, values: seq<SearchRow>,
                           names: seq<Relation>)
    requires NoDuplicates(names) && names != [] && QueryDriving(types).Some?
    ensures multiset(Where(db, types, Emitted(contents, values, QueryDriving(types), names))) ==
      multiset(Where(db, types, Intended(contents, values, QueryDriving(types), names)))
  {
    var driving := QueryDriving(types);
    var intended := Intended(contents, values, driving, names);
    SelectedRows(db, types, contents, values, driving, names);
    forall row
      ensures Count(InFirst(Where(db, types, intended), driving.value), row) == Count(Where(db, types, intended), row)
    {
      WhereCount(db, types, intended, row);
      InFirstCount(Where(db, types, intended), driving.value, row);
      if driving.value !in row.parts {
        QueryDrivingSound(db, types, row);
      }
    }
    SameCounts(InFirst(Where(db, types, intended), driving.value), Where(db, types, intended));
  }

  ghost predicate AllIn(rows: seq<Joined>, table: Relation) {
    forall row | row in rows :: table in row.parts
  }

  /** Without a driving table the text selects what it stands for iff no selected object is missing from the first table. */
  lemma FullJoinExactIff(db: Predicates, types: seq<Search>, contents: Contents, values: seq<SearchRow>,
                         names: seq<Relation>)
    requires NoDuplicates(names) && names != []
    ensures multiset(Where(db, types, Emitted(contents, values, None, names))) ==
        multiset(Where(db, types, Intended(contents, values, None, names)))
      <==> AllIn(Where(db, types, Intended(contents, values, None, names)), names[0])
  {
    var selected := Where(db, types, Intended(contents, values, None, names));
    var emitted := Where(db, types, Emitted(contents, values, None, names));
    SelectedRows(db, types, contents, values, None, names);
    if AllIn(selected, names[0]) {
      AllInFirst(selected, names[0]);
    }
    if multiset(emitted) == multiset(selected) {
      forall row | row in selected ensures names[0] in row.parts {
        InFirstCount(selected, names[0], row);
        CountMember(selected, row);
        CountIsMultiplicity(selected, row);
        CountIsMultiplicity(InFirst(selected, names[0]), row);
      }
    }
  }

  lemma {:induction false} AllInFirst(rows: seq<Joined>, table: Relation)
    requires AllIn(rows, table)
    ensures InFirst(rows, table) == rows
  {
    if rows != [] {
      assert rows == [rows[0]] + rows[1..];
      AllInFirst(rows[1..], table);
    }
  }
}

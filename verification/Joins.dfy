/** The joins of a search query, the text's own left-to-right reading and the intended one, as bags of rows. */
module Joins {
  import opened Collections
  import opened Schema
  import opened Filters

  /** A row of a layer-2 table; of a view, its text stands for the row. */
  datatype Entry = Entry(pgc: Pgc, summary: Summary)

  datatype Table = Table(name: Relation, entries: seq<Entry>)

  ghost predicate DistinctNames(tables: seq<Table>) {
    forall i, j | 0 <= i < j < |tables| :: tables[i].name != tables[j].name
  }

  function Names(tables: seq<Table>): set<Relation> {
    set t | t in tables :: t.name
  }

  // ---- The operators ----

  function RowOf(table: Relation, e: Entry): Joined {
    Joined(None, e.pgc, map[table := e.summary])
  }

  function Scan(t: Relation, entries: seq<Entry>): seq<Joined> {
    if entries == [] then [] else [RowOf(t, entries[0])] + Scan(t, entries[1..])
  }

  function Matches(row: Joined, t: Relation, entries: seq<Entry>): seq<Joined> {
    if entries == [] then [] else
      (if entries[0].pgc == row.pgc then [row.(parts := row.parts[t := entries[0].summary])] else [])
      + Matches(row, t, entries[1..])
  }

  function Extend(row: Joined, t: Table): seq<Joined> {
    var matches := Matches(row, t.name, t.entries);
    if matches == [] then [row] else matches
  }

  /** `rows LEFT JOIN t USING (pgc)` */
  function LeftJoin(rows: seq<Joined>, t: Table): seq<Joined> {
    if rows == [] then [] else Extend(rows[0], t) + LeftJoin(rows[1..], t)
  }

  predicate HasPgc(rows: seq<Joined>, p: Pgc) {
    rows != [] && (rows[0].pgc == p || HasPgc(rows[1..], p))
  }

  function Unmatched(rows: seq<Joined>, t: Relation, entries: seq<Entry>): seq<Joined> {
    if entries == [] then [] else
      (if HasPgc(rows, entries[0].pgc) then [] else [RowOf(t, entries[0])]) + Unmatched(rows, t, entries[1..])
  }

  /** `rows FULL JOIN t USING (pgc)`: what the left join has, and the entries no row matches, NULL elsewhere. */
  function FullJoin(rows: seq<Joined>, t: Table): seq<Joined> {
    LeftJoin(rows, t) + Unmatched(rows, t.name, t.entries)
  }

  function Attach(search: SearchRow, rows: seq<Joined>): seq<Joined> {
    if rows == [] then [] else [rows[0].(search := Some(search))] + Attach(search, rows[1..])
  }

  /** `searches CROSS JOIN rows` */
  function CrossJoin(searches: seq<SearchRow>, rows: seq<Joined>): seq<Joined> {
    if searches == [] then [] else Attach(searches[0], rows) + CrossJoin(searches[1..], rows)
  }

  function LeftJoins(rows: seq<Joined>, tables: seq<Table>): seq<Joined>
    decreases |tables|
  {
    if tables == [] then rows else LeftJoins(LeftJoin(rows, tables[0]), tables[1..])
  }

  function FullJoins(rows: seq<Joined>, tables: seq<Table>): seq<Joined>
    decreases |tables|
  {
    if tables == [] then rows else FullJoins(FullJoin(rows, tables[0]), tables[1..])
  }

  // ---- How often a row occurs, by table ----

  function EntryCount(t: Table, row: Joined): nat {
    if t.name in row.parts then Count(t.entries, Entry(row.pgc, row.parts[t.name]))
    else if Holds(t.entries, row.pgc) then 0 else 1
  }

  predicate Holds(entries: seq<Entry>, p: Pgc) {
    entries != [] && (entries[0].pgc == p || Holds(entries[1..], p))
  }

  /** The multiplicity of a row in a join of `tables`, whatever their order: a product over the tables. */
  function Multiplicity(tables: seq<Table>, row: Joined): nat {
    if tables == [] then 1 else EntryCount(tables[0], row) * Multiplicity(tables[1..], row)
  }

  function Drop(row: Joined, names: set<Relation>): Joined {
    row.(parts := row.parts - names)
  }

  // ---- Left joins ----

  lemma {:induction false} MatchesCount(r: Joined, t: Relation, entries: seq<Entry>, row: Joined)
    requires t !in r.parts
    ensures Count(Matches(r, t, entries), row) ==
      if t in row.parts && r == Drop(row, {t}) then Count(entries, Entry(row.pgc, row.parts[t])) else 0
    ensures Matches(r, t, entries) == [] <==> !Holds(entries, r.pgc)
  {
    if entries != [] {
      MatchesCount(r, t, entries[1..], row);
      var head := if entries[0].pgc == r.pgc then [r.(parts := r.parts[t := entries[0].summary])] else [];
      CountAppend(head, Matches(r, t, entries[1..]), row);
      if entries[0].pgc == r.pgc {
        var extended := r.(parts := r.parts[t := entries[0].summary]);
        assert extended.parts - {t} == r.parts;
        assert extended == row <==> t in row.parts && r == Drop(row, {t}) && entries[0] == Entry(row.pgc, row.parts[t]) by {
          if t in row.parts && r == Drop(row, {t}) && entries[0] == Entry(row.pgc, row.parts[t]) {
            assert extended.parts == row.parts;
          }
        }
      }
    }
  }

  lemma ExtendCount(r: Joined, t: Table, row: Joined)
    requires t.name !in r.parts
    ensures Count(Extend(r, t), row) == if r == Drop(row, {t.name}) then EntryCount(t, row) else 0
  {
    MatchesCount(r, t.name, t.entries, row);
    if t.name !in row.parts {
      assert Drop(row, {t.name}) == row;
    } else {
      NoEntryNoCount(t.entries, row.pgc, row.parts[t.name]);
    }
  }

  lemma {:induction false} NoEntryNoCount(entries: seq<Entry>, p: Pgc, x: Summary)
    ensures !Holds(entries, p) ==> Count(entries, Entry(p, x)) == 0
  {
    if entries != [] {
      NoEntryNoCount(entries[1..], p, x);
    }
  }

  ghost predicate Lacks(rows: seq<Joined>, names: set<Relation>) {
    forall r | r in rows :: r.parts.Keys !! names
  }

  lemma {:induction false} LeftJoinCount(rows: seq<Joined>, t: Table, row: Joined)
    requires Lacks(rows, {t.name})
    ensures Count(LeftJoin(rows, t), row) == Count(rows, Drop(row, {t.name})) * EntryCount(t, row)
  {
    if rows != [] {
      assert rows[0] in rows;
      assert t.name !in rows[0].parts.Keys;
      assert forall r | r in rows[1..] :: r in rows;
      ExtendCount(rows[0], t, row);
      LeftJoinCount(rows[1..], t, row);
      CountAppend(Extend(rows[0], t), LeftJoin(rows[1..], t), row);
      Distribute(if rows[0] == Drop(row, {t.name}) then 1 else 0, Count(rows[1..], Drop(row, {t.name})), EntryCount(t, row));
    }
  }

  lemma Distribute(a: nat, b: nat, c: nat)
    ensures (a + b) * c == a * c + b * c
  {
  }

  lemma Associate(a: nat, b: nat, c: nat)
    ensures (a * b) * c == a * (b * c)
  {
  }

  lemma MatchesLack(r: Joined, t: Relation, entries: seq<Entry>, names: set<Relation>)
    requires r.parts.Keys !! names && t !in names
    ensures Lacks(Matches(r, t, entries), names)
  {
  }

  lemma {:induction false} LeftJoinLacks(rows: seq<Joined>, t: Table, names: set<Relation>)
    requires Lacks(rows, names) && t.name !in names
    ensures Lacks(LeftJoin(rows, t), names)
  {
    if rows != [] {
      assert rows[0] in rows;
      assert forall r | r in rows[1..] :: r in rows;
      MatchesLack(rows[0], t.name, t.entries, names);
      LeftJoinLacks(rows[1..], t, names);
    }
  }

  lemma TailNames(tables: seq<Table>)
    requires DistinctNames(tables) && tables != []
    ensures DistinctNames(tables[1..]) && tables[0].name !in Names(tables[1..])
    ensures Names(tables) == {tables[0].name} + Names(tables[1..])
  {
    assert forall t :: t in tables <==> t == tables[0] || t in tables[1..];
  }

  lemma FewerLacks(rows: seq<Joined>, names: set<Relation>, fewer: set<Relation>)
    requires Lacks(rows, names) && fewer <= names
    ensures Lacks(rows, fewer)
  {
  }

  /** What a chain of left joins contains. */
  lemma {:induction false} LeftJoinsCount(rows: seq<Joined>, tables: seq<Table>, row: Joined)
    requires DistinctNames(tables) && Lacks(rows, Names(tables))
    ensures Count(LeftJoins(rows, tables), row) == Count(rows, Drop(row, Names(tables))) * Multiplicity(tables, row)
    decreases |tables|
  {
    if tables == [] {
      assert Drop(row, {}) == row;
      assert Names(tables) == {};
    } else {
      var t, rest := tables[0], tables[1..];
      TailNames(tables);
      FewerLacks(rows, Names(tables), {t.name});
      FewerLacks(rows, Names(tables), Names(rest));
      LeftJoinLacks(rows, t, Names(rest));
      LeftJoinsCount(LeftJoin(rows, t), rest, row);
      var dropped := Drop(row, Names(rest));
      LeftJoinCount(rows, t, dropped);
      assert Drop(dropped, {t.name}) == Drop(row, Names(tables));
      assert EntryCount(t, dropped) == EntryCount(t, row);
      Associate(Count(rows, Drop(row, Names(tables))), EntryCount(t, row), Multiplicity(rest, row));
    }
  }

  // ---- Full joins ----

  /** The tables that hold an object, if any. */
  ghost predicate AnyHolds(tables: seq<Table>, p: Pgc) {
    tables != [] && (Holds(tables[0].entries, p) || AnyHolds(tables[1..], p))
  }

  /** The multiplicity of a row in the full join of `tables`: an object is in it once some table holds it. */
  ghost function FullCount(tables: seq<Table>, row: Joined): nat {
    if row.search.None? && row.parts.Keys != {} && row.parts.Keys <= Names(tables) then Multiplicity(tables, row) else 0
  }

  /** `rows` are the full join of `tables`. */
  ghost predicate IsFullJoin(rows: seq<Joined>, tables: seq<Table>) {
    && (forall row :: Count(rows, row) == FullCount(tables, row))
    && forall p :: HasPgc(rows, p) <==> AnyHolds(tables, p)
  }

  lemma {:induction false} UnmatchedCount(rows: seq<Joined>, t: Relation, entries: seq<Entry>, row: Joined)
    ensures Count(Unmatched(rows, t, entries), row) ==
      if row.search.None? && row.parts.Keys == {t} && !HasPgc(rows, row.pgc)
      then Count(entries, Entry(row.pgc, row.parts[t])) else 0
  {
    if entries != [] {
      UnmatchedCount(rows, t, entries[1..], row);
      var first := RowOf(t, entries[0]);
      CountAppend(if HasPgc(rows, entries[0].pgc) then [] else [first], Unmatched(rows, t, entries[1..]), row);
      if row.search.None? && row.parts.Keys == {t} {
        assert row.parts == map[t := row.parts[t]];
        assert first == row <==> entries[0] == Entry(row.pgc, row.parts[t]) by {
          assert first.parts[t] == entries[0].summary;
        }
      } else {
        assert first.parts.Keys == {t};
      }
    }
  }

  lemma {:induction false} HasPgcAppend(a: seq<Joined>, b: seq<Joined>, p: Pgc)
    ensures HasPgc(a + b, p) <==> HasPgc(a, p) || HasPgc(b, p)
  {
    if a == [] {
      assert a + b == b;
    } else {
      assert (a + b)[1..] == a[1..] + b;
      HasPgcAppend(a[1..], b, p);
    }
  }

  lemma {:induction false} MatchesPgc(r: Joined, t: Relation, entries: seq<Entry>, p: Pgc)
    ensures HasPgc(Matches(r, t, entries), p) <==> Matches(r, t, entries) != [] && r.pgc == p
  {
    if entries != [] {
      MatchesPgc(r, t, entries[1..], p);
      var head := if entries[0].pgc == r.pgc then [r.(parts := r.parts[t := entries[0].summary])] else [];
      HasPgcAppend(head, Matches(r, t, entries[1..]), p);
    }
  }

  lemma {:induction false} LeftJoinPgc(rows: seq<Joined>, t: Table, p: Pgc)
    ensures HasPgc(LeftJoin(rows, t), p) <==> HasPgc(rows, p)
  {
    if rows != [] {
      MatchesPgc(rows[0], t.name, t.entries, p);
      LeftJoinPgc(rows[1..], t, p);
      HasPgcAppend(Extend(rows[0], t), LeftJoin(rows[1..], t), p);
    }
  }

  lemma {:induction false} UnmatchedPgc(rows: seq<Joined>, t: Relation, entries: seq<Entry>, p: Pgc)
    ensures HasPgc(Unmatched(rows, t, entries), p) <==> Holds(entries, p) && !HasPgc(rows, p)
  {
    if entries != [] {
      UnmatchedPgc(rows, t, entries[1..], p);
      HasPgcAppend(if HasPgc(rows, entries[0].pgc) then [] else [RowOf(t, entries[0])], Unmatched(rows, t, entries[1..]), p);
    }
  }

  lemma {:induction false} AnyHoldsAppend(tables: seq<Table>, t: Table, p: Pgc)
    ensures AnyHolds(tables + [t], p) <==> AnyHolds(tables, p) || Holds(t.entries, p)
  {
    if tables != [] {
      assert (tables + [t])[1..] == tables[1..] + [t];
      AnyHoldsAppend(tables[1..], t, p);
    }
  }

  lemma {:induction false} MultiplicityAppend(tables: seq<Table>, t: Table, row: Joined)
    ensures Multiplicity(tables + [t], row) == Multiplicity(tables, row) * EntryCount(t, row)
  {
    if tables != [] {
      assert (tables + [t])[1..] == tables[1..] + [t];
      MultiplicityAppend(tables[1..], t, row);
      Associate(EntryCount(tables[0], row), Multiplicity(tables[1..], row), EntryCount(t, row));
    } else {
      assert (tables + [t])[1..] == [];
    }
  }

  lemma {:induction false} MultiplicityDrop(tables: seq<Table>, row: Joined, t: Relation)
    requires t !in Names(tables)
    ensures Multiplicity(tables, Drop(row, {t})) == Multiplicity(tables, row)
  {
    if tables != [] {
      assert tables[0] in tables;
      assert tables[0].name != t;
      assert forall s | s in tables[1..] :: s in tables;
      MultiplicityDrop(tables[1..], row, t);
    }
  }

  lemma {:induction false} MultiplicityOfNone(tables: seq<Table>, row: Joined)
    requires row.parts.Keys !! Names(tables)
    ensures Multiplicity(tables, row) == if AnyHolds(tables, row.pgc) then 0 else 1
  {
    if tables != [] {
      assert tables[0] in tables;
      assert tables[0].name !in row.parts;
      assert forall s | s in tables[1..] :: s in tables;
      MultiplicityOfNone(tables[1..], row);
    }
  }

  lemma FullJoinLacks(rows: seq<Joined>, tables: seq<Table>, t: Relation)
    requires IsFullJoin(rows, tables) && t !in Names(tables)
    ensures Lacks(rows, {t})
  {
    forall r | r in rows ensures r.parts.Keys !! {t} {
      CountMember(rows, r);
      assert Count(rows, r) == FullCount(tables, r);
    }
  }

  lemma NamesAppend(tables: seq<Table>, t: Table)
    ensures Names(tables + [t]) == Names(tables) + {t.name}
  {
    assert forall s :: s in tables + [t] <==> s in tables || s == t;
  }

  lemma FullJoinCount(rows: seq<Joined>, tables: seq<Table>, t: Table, row: Joined)
    requires IsFullJoin(rows, tables) && t.name !in Names(tables)
    ensures Count(FullJoin(rows, t), row) == FullCount(tables + [t], row)
  {
    var rest := Drop(row, {t.name});
    FullJoinLacks(rows, tables, t.name);
    LeftJoinCount(rows, t, row);
    UnmatchedCount(rows, t.name, t.entries, row);
    CountAppend(LeftJoin(rows, t), Unmatched(rows, t.name, t.entries), row);
    assert Count(rows, rest) == FullCount(tables, rest);
    assert HasPgc(rows, row.pgc) <==> AnyHolds(tables, row.pgc);
    NamesAppend(tables, t);
    MultiplicityAppend(tables, t, row);
    MultiplicityDrop(tables, row, t.name);
    if rest.parts.Keys == {} {
      assert row.parts.Keys <= {t.name};
      MultiplicityOfNone(tables, rest);
    }
  }

  lemma FullJoinStep(rows: seq<Joined>, tables: seq<Table>, t: Table)
    requires IsFullJoin(rows, tables) && t.name !in Names(tables)
    ensures IsFullJoin(FullJoin(rows, t), tables + [t])
  {
    forall row ensures Count(FullJoin(rows, t), row) == FullCount(tables + [t], row) {
      FullJoinCount(rows, tables, t, row);
    }
    forall p ensures HasPgc(FullJoin(rows, t), p) <==> AnyHolds(tables + [t], p) {
      LeftJoinPgc(rows, t, p);
      UnmatchedPgc(rows, t.name, t.entries, p);
      HasPgcAppend(LeftJoin(rows, t), Unmatched(rows, t.name, t.entries), p);
      AnyHoldsAppend(tables, t, p);
      assert HasPgc(rows, p) <==> AnyHolds(tables, p);
    }
  }

  lemma DistinctAppend(done: seq<Table>, rest: seq<Table>)
    requires rest != [] && DistinctNames(done + rest)
    ensures rest[0].name !in Names(done)
    ensures done + rest == done + [rest[0]] + rest[1..]
  {
    var all := done + rest;
    forall t | t in done ensures t.name != rest[0].name {
      var i :| 0 <= i < |done| && done[i] == t;
      assert all[i] == t && all[|done|] == rest[0];
    }
  }

  lemma {:induction false} FullJoinsStep(rows: seq<Joined>, done: seq<Table>, rest: seq<Table>)
    requires IsFullJoin(rows, done) && DistinctNames(done + rest)
    ensures IsFullJoin(FullJoins(rows, rest), done + rest)
    decreases |rest|
  {
    if rest == [] {
      assert done + rest == done;
    } else {
      DistinctAppend(done, rest);
      FullJoinStep(rows, done, rest[0]);
      FullJoinsStep(FullJoin(rows, rest[0]), done + [rest[0]], rest[1..]);
    }
  }

  lemma {:induction false} ScanCount(t: Relation, entries: seq<Entry>, row: Joined)
    ensures Count(Scan(t, entries), row) ==
      if row.search.None? && row.parts.Keys == {t} then Count(entries, Entry(row.pgc, row.parts[t])) else 0
    ensures HasPgc(Scan(t, entries), row.pgc) <==> Holds(entries, row.pgc)
  {
    if entries != [] {
      ScanCount(t, entries[1..], row);
      var first := RowOf(t, entries[0]);
      if row.search.None? && row.parts.Keys == {t} {
        assert row.parts == map[t := row.parts[t]];
        assert first == row <==> entries[0] == Entry(row.pgc, row.parts[t]) by {
          assert first.parts[t] == entries[0].summary;
        }
      } else {
        assert first.parts.Keys == {t};
      }
    }
  }

  lemma ScanIsFullJoin(t: Table)
    ensures IsFullJoin(Scan(t.name, t.entries), [t])
  {
    var rows := Scan(t.name, t.entries);
    forall row ensures Count(rows, row) == FullCount([t], row) {
      ScanCount(t.name, t.entries, row);
      assert Multiplicity([t], row) == EntryCount(t, row) * Multiplicity([], row);
      assert Names([t]) == {t.name};
      assert row.parts.Keys != {} && row.parts.Keys <= {t.name} ==> t.name in row.parts.Keys;
    }
    forall p ensures HasPgc(rows, p) <==> AnyHolds([t], p) {
      ScanCount(t.name, t.entries, Joined(None, p, map[]));
    }
  }

  function FullJoinOf(tables: seq<Table>): seq<Joined> {
    if tables == [] then [] else FullJoins(Scan(tables[0].name, tables[0].entries), tables[1..])
  }

  /** The full join of a list of tables depends on their order only in the order of its rows. */
  lemma FullJoinOfCount(tables: seq<Table>, row: Joined)
    requires DistinctNames(tables)
    ensures Count(FullJoinOf(tables), row) == FullCount(tables, row)
  {
    if tables != [] {
      assert tables == [tables[0]] + tables[1..];
      ScanIsFullJoin(tables[0]);
      FullJoinsStep(Scan(tables[0].name, tables[0].entries), [tables[0]], tables[1..]);
      assert IsFullJoin(FullJoinOf(tables), tables);
    }
  }
}

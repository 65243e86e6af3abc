/** What LIMIT and OFFSET show of an answer, and the objects that are made of what they show. */
module AnswerPages {
  import opened Collections
  import opened Filters
  import opened Joins
  import opened QueryPlan
  import opened Rendering
  import opened SearchResults
  import opened SearchParameters
  import opened CatalogQuery
  import opened AnswerRows
  import BatchQuery
  import Sql
  import opened SqlMeaning
  import opened QueryTexts

  function PageOf<T>(rows: seq<T>, limit: nat, offset: nat): seq<T> {
    var rest := if offset <= |rows| then rows[offset..] else [];
    if limit < |rest| then rest[..limit] else rest
  }

  /** A page is the rows from `offset` on, up to `limit` of them. */
  lemma PageRows<T>(rows: seq<T>, limit: nat, offset: nat)
    ensures var page, left := PageOf(rows, limit, offset), |rows| - offset;
      && |page| == (if left <= 0 then 0 else if left < limit then left else limit)
      && forall i | 0 <= i < |page| :: offset + i < |rows| && page[i] == rows[offset + i]
  {}

  /** An order the database may return the rows in. */
  ghost predicate Listing<T>(q: seq<T>, rows: seq<T>) {
    multiset(q) == multiset(rows)
  }

  // ---- Without ORDER BY ----

  /** The page has the same rows in whatever order the query is answered. */
  ghost predicate SamePageAlways<T(!new)>(rows: seq<T>, limit: nat, offset: nat) {
    forall q, r | Listing(q, rows) && Listing(r, rows) ::
      multiset(PageOf(q, limit, offset)) == multiset(PageOf(r, limit, offset))
  }

  ghost predicate AllSame<T(!new)>(rows: seq<T>) {
    forall x, y | x in rows && y in rows :: x == y
  }

  /** The page shows nothing, or everything. */
  predicate ShowsNoneOrAll<T>(rows: seq<T>, limit: nat, offset: nat) {
    limit == 0 || offset >= |rows| || (offset == 0 && limit >= |rows|)
  }

  lemma NoneOrAllSame<T>(q: seq<T>, r: seq<T>, limit: nat, offset: nat)
    requires multiset(q) == multiset(r) && ShowsNoneOrAll(q, limit, offset)
    ensures multiset(PageOf(q, limit, offset)) == multiset(PageOf(r, limit, offset))
  {
    assert |q| == |multiset(q)| == |multiset(r)| == |r|;
    if offset == 0 {
      assert q[0..] == q && r[0..] == r;
    }
  }

  lemma {:induction false} ConstantsEqual<T(!new)>(q: seq<T>, r: seq<T>)
    requires multiset(q) == multiset(r) && AllSame(q)
    ensures q == r
  {
    assert |q| == |multiset(q)| == |multiset(r)| == |r|;
    forall i | 0 <= i < |q| ensures q[i] == r[i] {
      assert r[i] in multiset(r);
      assert r[i] in multiset(q);
      assert q[i] in q && r[i] in q;
    }
  }

  /** Two different rows, one shown and one not. */
  lemma ShownAndHidden<T(!new)>(rows: seq<T>, limit: nat, offset: nat) returns (i: nat, j: nat)
    requires !ShowsNoneOrAll(rows, limit, offset) && !AllSame(rows)
    ensures i < |rows| && j < |rows| && rows[i] != rows[j]
    ensures offset <= i < offset + limit && !(offset <= j < offset + limit)
  {
    i := offset;
    j := if offset > 0 then 0 else limit;
    if rows[i] == rows[j] {
      var x, y :| x in rows && y in rows && x != y;
      var z := if x == rows[i] then y else x;
      var k :| 0 <= k < |rows| && rows[k] == z;
      if offset <= k < offset + limit {
        i := k;
      } else {
        j := k;
      }
    }
  }

  lemma SwapChangesPage<T(!new)>(rows: seq<T>, limit: nat, offset: nat, i: nat, j: nat)
    requires i < |rows| && j < |rows| && rows[i] != rows[j]
    requires offset <= i < offset + limit && !(offset <= j < offset + limit)
    ensures var q := rows[i := rows[j]][j := rows[i]];
      Listing(q, rows) && multiset(PageOf(q, limit, offset)) != multiset(PageOf(rows, limit, offset))
  {
    var q := rows[i := rows[j]][j := rows[i]];
    var page := PageOf(rows, limit, offset);
    assert page[i - offset] == rows[i];
    assert PageOf(q, limit, offset) == page[i - offset := rows[j]];
    assert multiset(page[i - offset := rows[j]])[rows[j]] == multiset(page)[rows[j]] + 1;
  }

  /** Without ORDER BY a page is determined iff it shows nothing or everything, or all rows are alike. */
  lemma UnorderedPageIff<T(!new)>(rows: seq<T>, limit: nat, offset: nat)
    ensures SamePageAlways(rows, limit, offset) <==> ShowsNoneOrAll(rows, limit, offset) || AllSame(rows)
  {
    if ShowsNoneOrAll(rows, limit, offset) || AllSame(rows) {
      forall q, r | Listing(q, rows) && Listing(r, rows)
        ensures multiset(PageOf(q, limit, offset)) == multiset(PageOf(r, limit, offset))
      {
        if AllSame(rows) {
          ConstantsEqual(rows, q);
          ConstantsEqual(rows, r);
        } else {
          NoneOrAllSame(rows, q, limit, offset);
          NoneOrAllSame(rows, r, limit, offset);
        }
      }
    } else {
      var i, j := ShownAndHidden(rows, limit, offset);
      SwapChangesPage(rows, limit, offset, i, j);
      assert Listing(rows, rows);
    }
  }

  // ---- With ORDER BY distance, pgc ----

  /** How far a row is from the centre, if it has a position. */
  type Distance = Joined -> Option<real>

  function DistanceFrom(db: Predicates, ra: real, dec: real): Distance {
    row => var p := PositionIn(row);
      if p.None? then Option.None else Some(db.distance(ra, dec, p.value.0, p.value.1))
  }

  /** Rows without a distance come last. */
  predicate Nearer(x: Option<real>, y: Option<real>) {
    x.Some? && (y.None? || x.value < y.value)
  }

  /** `a` may come before `b`. */
  predicate Before(distance: Distance, a: Joined, b: Joined) {
    Nearer(distance(a), distance(b)) || (distance(a) == distance(b) && a.pgc.number <= b.pgc.number)
  }

  // ---- What the text of the ordering asks for ----

  /** How the database sorts values: NULL after everything. */
  predicate Precedes(a: Datum, b: Datum) {
    match (a, b)
    case (Null, _) => false
    case (_, Null) => true
    case (Numeric(x), Numeric(y)) => x < y
    case (Object(p), Object(q)) => p.number < q.number
    case _ => false
  }

  /** Rows are sorted by the first of their values that differ. */
  predicate NotAfter(a: seq<Datum>, b: seq<Datum>)
    requires |a| == |b|
  {
    a == [] || Precedes(a[0], b[0]) || (a[0] == b[0] && NotAfter(a[1..], b[1..]))
  }

  function KeysOf(db: Predicates, es: seq<Sql.Expr>, row: Joined): (keys: seq<Datum>)
    ensures |keys| == |es|
  {
    seq(|es|, i requires 0 <= i < |es| => EvalExpr(db, es[i], row))
  }

  function DistanceDatum(x: Option<real>): Datum {
    if x.None? then Datum.Null else Numeric(x.value)
  }

  lemma KeysCompare(x: Option<real>, y: Option<real>, p: Pgc, q: Pgc)
    ensures NotAfter([DistanceDatum(x), Object(p)], [DistanceDatum(y), Object(q)]) <==>
      Nearer(x, y) || (x == y && p.number <= q.number)
  {
    var a, b := [DistanceDatum(x), Object(p)], [DistanceDatum(y), Object(q)];
    assert a[1..] == [Object(p)] && b[1..] == [Object(q)] && a[1..][1..] == [] && b[1..][1..] == [];
    assert NotAfter([Object(p)], [Object(q)]) <==> p.number <= q.number;
  }

  lemma KeysAre(db: Predicates, ra: real, dec: real, row: Joined)
    ensures KeysOf(db, OrderExprs(ra, dec), row) == [DistanceDatum(DistanceFrom(db, ra, dec)(row)), Object(row.pgc)]
  {
    hide Sql.ReadOrder, EvalExpr, OrderExprs, BatchQuery.OrderPieces;
    OrderTextMeans(db, ra, dec, row);
    TwoExprs(ra, dec);
    var keys := KeysOf(db, OrderExprs(ra, dec), row);
    assert keys == [keys[0], keys[1]];
  }

  lemma TwoExprs(ra: real, dec: real)
    ensures |OrderExprs(ra, dec)| == 2
  {}

  /** The text of the ordering, read and evaluated, sorts the rows by distance and then by number. */
  lemma OrderIsBefore(db: Predicates, ra: real, dec: real, a: Joined, b: Joined)
    ensures var read := Sql.ReadOrder(BatchQuery.OrderPieces(Some(BatchQuery.DistanceTo(ra, dec))));
      && read.Some?
      && (NotAfter(KeysOf(db, read.value, a), KeysOf(db, read.value, b)) <==> Before(DistanceFrom(db, ra, dec), a, b))
  {
    hide Sql.ReadOrder, EvalExpr, OrderExprs, NotAfter, KeysOf, DistanceDatum, Nearer;
    OrderTextMeans(db, ra, dec, a);
    KeysAre(db, ra, dec, a);
    KeysAre(db, ra, dec, b);
    KeysCompare(DistanceFrom(db, ra, dec)(a), DistanceFrom(db, ra, dec)(b), a.pgc, b.pgc);
  }

  ghost predicate Ordered(distance: Distance, q: seq<Joined>) {
    forall i, j | 0 <= i < j < |q| :: Before(distance, q[i], q[j])
  }

  ghost predicate OneRowPerPgc(rows: seq<Joined>) {
    forall x, y | x in rows && y in rows && x.pgc == y.pgc :: x == y
  }

  lemma OrderedTail(distance: Distance, q: seq<Joined>)
    requires q != [] && Ordered(distance, q)
    ensures Ordered(distance, q[1..])
    ensures forall x | x in q :: x == q[0] || Before(distance, q[0], x)
  {
    forall x | x in q ensures x == q[0] || Before(distance, q[0], x) {
      var i :| 0 <= i < |q| && q[i] == x;
    }
  }

  lemma SameHead(distance: Distance, q: seq<Joined>, r: seq<Joined>)
    requires multiset(q) == multiset(r) && q != [] && r != []
    requires Ordered(distance, q) && Ordered(distance, r) && OneRowPerPgc(q)
    ensures q[0] == r[0]
  {
    hide Ordered;
    assert q[0] in multiset(r) && r[0] in multiset(q);
    assert q[0] in r && r[0] in q && q[0] in q;
    OrderedTail(distance, q);
    OrderedTail(distance, r);
  }

  lemma SameTails<T>(q: seq<T>, r: seq<T>)
    requires q != [] && r != [] && q[0] == r[0] && multiset(q) == multiset(r)
    ensures multiset(q[1..]) == multiset(r[1..])
  {
    assert q == [q[0]] + q[1..] && r == [r[0]] + r[1..];
    assert multiset(q[1..]) == multiset(q) - multiset{q[0]};
    assert multiset(r[1..]) == multiset(r) - multiset{r[0]};
  }

  /** If no object has two different rows there is one order, and so one page. */
  lemma {:induction false} OrderedListingUnique(distance: Distance, q: seq<Joined>, r: seq<Joined>)
    requires multiset(q) == multiset(r) && Ordered(distance, q) && Ordered(distance, r) && OneRowPerPgc(q)
    ensures q == r
  {
    hide Ordered;
    assert |q| == |multiset(q)| == |multiset(r)| == |r|;
    if q != [] {
      SameHead(distance, q, r);
      SameTails(q, r);
      OrderedTail(distance, q);
      OrderedTail(distance, r);
      TailPerPgc(q);
      OrderedListingUnique(distance, q[1..], r[1..]);
    }
  }

  lemma TailPerPgc(q: seq<Joined>)
    requires q != [] && OneRowPerPgc(q)
    ensures OneRowPerPgc(q[1..])
  {
    assert forall x | x in q[1..] :: x in q;
  }

  lemma DrivenRowsPerPgc(db: Predicates, contents: Contents, p: SearchParams, f: Filter, names: seq<Relation>)
    requires Writable(f) && NoDuplicates(names) && names != [] && DrivingTable(f).Some?
    requires UniqueTables(contents, Others(names, DrivingTable(f).value)) && UniqueTables(contents, [DrivingTable(f).value])
    ensures OneRowPerPgc(Answer(db, contents, p, f, names))
  {
    hide Answer, RowsOfEntries, ObjectParts, Eval, UniqueTables;
    var t := DrivingTable(f).value;
    var answer := Answer(db, contents, p, f, names);
    forall x, y | x in answer && y in answer && x.pgc == y.pgc ensures x == y {
      AnswerRowMade(db, contents, p, f, t, names, x);
      AnswerRowMade(db, contents, p, f, t, names, y);
      OneEntry(contents, t, Entry(x.pgc, x.parts[t]), Entry(y.pgc, y.parts[t]));
      assert x.parts == (x.parts - {t})[t := x.parts[t]];
      assert y.parts == (y.parts - {t})[t := y.parts[t]];
    }
  }

  lemma OneEntry(contents: Contents, t: Relation, a: Entry, b: Entry)
    requires UniqueTables(contents, [t]) && a in contents(t) && b in contents(t) && a.pgc == b.pgc
    ensures a == b
  {
    assert t in [t];
    LookupCount(contents(t), a.pgc, a.summary);
    LookupCount(contents(t), b.pgc, b.summary);
    CountMember(contents(t), a);
    CountMember(contents(t), b);
  }

  /** Every row of an answer is made of an entry of the driving table and all the other tables say of its object. */
  lemma AnswerRowMade(db: Predicates, contents: Contents, p: SearchParams, f: Filter, t: Relation, names: seq<Relation>,
                      row: Joined)
    requires Writable(f) && NoDuplicates(names) && names != [] && DrivingTable(f) == Some(t)
    requires UniqueTables(contents, Others(names, t)) && row in Answer(db, contents, p, f, names)
    ensures MadeOf(SearchOf(p), TablesOf(contents, Others(names, t)), t, row)
    ensures Entry(row.pgc, row.parts[t]) in contents(t) && Eval(db, f, row) == True
  {
    hide Answer, RowsOfEntries, MadeOf, Eval;
    var others := OthersUnique(contents, names, t);
    var rows := RowsOfEntries(db, f, SearchOf(p), others, t, contents(t));
    AnswerIsEntries(db, contents, p, f, t, names);
    assert row in multiset(Answer(db, contents, p, f, names));
    assert row in multiset(rows);
    CountMember(rows, row);
    RowsOfEntriesCount(db, f, SearchOf(p), others, t, contents(t), row);
    MadeHasPart(SearchOf(p), others, t, row);
    CountMember(contents(t), Entry(row.pgc, row.parts[t]));
  }

  lemma MadeHasPart(search: SearchRow, others: seq<Table>, t: Relation, row: Joined)
    requires MadeOf(search, others, t, row)
    ensures t in row.parts
  {}

  /** Pages of a search driven by a table with one entry per object, as a search by position, are fixed by the order. */
  lemma OrderedPageFixed(db: Predicates, contents: Contents, p: SearchParams, f: Filter, names: seq<Relation>,
                         distance: Distance, q: seq<Joined>, r: seq<Joined>, limit: nat, offset: nat)
    requires Writable(f) && NoDuplicates(names) && names != [] && DrivingTable(f).Some?
    requires UniqueTables(contents, Others(names, DrivingTable(f).value)) && UniqueTables(contents, [DrivingTable(f).value])
    requires Listing(q, Answer(db, contents, p, f, names)) && Listing(r, Answer(db, contents, p, f, names))
    requires Ordered(distance, q) && Ordered(distance, r)
    ensures PageOf(q, limit, offset) == PageOf(r, limit, offset)
  {
    hide Answer, Ordered, UniqueTables;
    DrivenRowsPerPgc(db, contents, p, f, names);
    ListingPerPgc(q, Answer(db, contents, p, f, names));
    OrderedListingUnique(distance, q, r);
  }

  lemma ListingPerPgc(q: seq<Joined>, rows: seq<Joined>)
    requires Listing(q, rows) && OneRowPerPgc(rows)
    ensures OneRowPerPgc(q)
  {
    forall x | x in q ensures x in rows {
      assert x in multiset(q);
      assert x in multiset(rows);
    }
  }

  // ---- The objects of a page ----

  function PgcsOfRows(rows: seq<Joined>): seq<Pgc> {
    if rows == [] then [] else PgcsOfRows(rows[..|rows| - 1]) + [rows[|rows| - 1].pgc]
  }

  /** The rows of one object, in their order. */
  function RowsWith(rows: seq<Joined>, p: Pgc): seq<Joined> {
    if rows == [] then [] else
      RowsWith(rows[..|rows| - 1], p) + if rows[|rows| - 1].pgc == p then [rows[|rows| - 1]] else []
  }

  lemma {:induction false} RowsWithFacts(rows: seq<Joined>, p: Pgc)
    ensures RowsWith(rows, p) != [] <==> p in PgcsOfRows(rows)
    ensures forall x | x in RowsWith(rows, p) :: x in rows && x.pgc == p
    ensures |PgcsOfRows(rows)| == |rows|
  {
    if rows != [] {
      RowsWithFacts(rows[..|rows| - 1], p);
      assert rows == rows[..|rows| - 1] + [rows[|rows| - 1]];
    }
  }

  /** `group_by` for the first rows of a page. */
  ghost predicate Grouped(rows: seq<Joined>, keys: seq<Pgc>, groups: map<Pgc, seq<Joined>>) {
    && keys == FirstOccurrences(PgcsOfRows(rows))
    && groups.Keys == Elements(keys)
    && forall p | p in groups :: groups[p] == RowsWith(rows, p)
  }

  lemma OneRowMore(rows: seq<Joined>, row: Joined, p: Pgc)
    ensures PgcsOfRows(rows + [row]) == PgcsOfRows(rows) + [row.pgc]
    ensures RowsWith(rows + [row], p) == if row.pgc == p then RowsWith(rows, p) + [row] else RowsWith(rows, p)
  {
    assert (rows + [row])[..|rows + [row]| - 1] == rows;
  }

  lemma OneOccurrenceMore<T>(s: seq<T>, x: T)
    ensures FirstOccurrences(s + [x]) == if x in FirstOccurrences(s) then FirstOccurrences(s) else FirstOccurrences(s) + [x]
  {
    assert (s + [x])[..|s + [x]| - 1] == s;
  }

  lemma KeysOn(rows: seq<Joined>, keys: seq<Pgc>, row: Joined)
    requires keys == FirstOccurrences(PgcsOfRows(rows))
    ensures row.pgc in keys <==> RowsWith(rows, row.pgc) != []
    ensures (if row.pgc in keys then keys else keys + [row.pgc]) == FirstOccurrences(PgcsOfRows(rows + [row]))
    ensures Elements(if row.pgc in keys then keys else keys + [row.pgc]) == Elements(keys) + {row.pgc}
  {
    hide RowsWith, PgcsOfRows, FirstOccurrences;
    FirstOccurrencesList(PgcsOfRows(rows));
    OneRowMore(rows, row, row.pgc);
    OneOccurrenceMore(PgcsOfRows(rows), row.pgc);
    RowsWithFacts(rows, row.pgc);
  }

  lemma GroupedOn(rows: seq<Joined>, keys: seq<Pgc>, groups: map<Pgc, seq<Joined>>, row: Joined)
    requires Grouped(rows, keys, groups)
    ensures var group := if row.pgc in groups then groups[row.pgc] else [];
      Grouped(rows + [row], if row.pgc in groups then keys else keys + [row.pgc], groups[row.pgc := group + [row]])
  {
    hide RowsWith, PgcsOfRows, FirstOccurrences;
    KeysOn(rows, keys, row);
    assert row.pgc in groups <==> row.pgc in keys;
    forall p ensures RowsWith(rows + [row], p) == if row.pgc == p then RowsWith(rows, p) + [row] else RowsWith(rows, p) {
      OneRowMore(rows, row, p);
    }
  }

  /** `_group_by_pgc`: of each object of the page, in the order they appear, the first row. */
  method GroupByPgc(rows: seq<Joined>) returns (objects: seq<Joined>)
    ensures |objects| == |FirstOccurrences(PgcsOfRows(rows))|
    ensures forall i | 0 <= i < |objects| ::
              var p := FirstOccurrences(PgcsOfRows(rows))[i];
              RowsWith(rows, p) != [] && objects[i] == RowsWith(rows, p)[0] && objects[i].pgc == p
  {
    hide Grouped, RowsWith, PgcsOfRows;
    var keys, groups := [], map[];
    NothingGrouped();
    for i := 0 to |rows|
      invariant Grouped(rows[..i], keys, groups)
    {
      GroupedOn(rows[..i], keys, groups, rows[i]);
      assert rows[..i + 1] == rows[..i] + [rows[i]];
      var group := if rows[i].pgc in groups then groups[rows[i].pgc] else [];
      keys := if rows[i].pgc in groups then keys else keys + [rows[i].pgc];
      groups := groups[rows[i].pgc := group + [rows[i]]];
    }
    assert rows[..|rows|] == rows;
    objects := [];
    for i := 0 to |keys|
      invariant |objects| == i
      invariant forall k | 0 <= k < i ::
                  RowsWith(rows, keys[k]) != [] && objects[k] == RowsWith(rows, keys[k])[0] && objects[k].pgc == keys[k]
    {
      GroupHasRow(rows, keys, groups, i);
      objects := objects + [groups[keys[i]][0]];
    }
    GroupedKeys(rows, keys, groups);
  }

  lemma NothingGrouped()
    ensures Grouped([], [], map[])
  {}

  lemma GroupedKeys(rows: seq<Joined>, keys: seq<Pgc>, groups: map<Pgc, seq<Joined>>)
    requires Grouped(rows, keys, groups)
    ensures keys == FirstOccurrences(PgcsOfRows(rows))
  {}

  lemma GroupHasRow(rows: seq<Joined>, keys: seq<Pgc>, groups: map<Pgc, seq<Joined>>, i: nat)
    requires Grouped(rows, keys, groups) && i < |keys|
    ensures keys[i] in groups && groups[keys[i]] == RowsWith(rows, keys[i])
    ensures RowsWith(rows, keys[i]) != [] && RowsWith(rows, keys[i])[0].pgc == keys[i]
  {
    assert keys[i] in Elements(keys);
    FirstOccurrencesList(PgcsOfRows(rows));
    assert keys[i] in PgcsOfRows(rows);
    RowsWithFacts(rows, keys[i]);
    assert RowsWith(rows, keys[i])[0] in RowsWith(rows, keys[i]);
  }

  lemma {:induction false} FewerOccurrences<T(!new)>(s: seq<T>)
    ensures |FirstOccurrences(s)| <= |s|
    ensures |FirstOccurrences(s)| == |s| <==> NoDuplicates(s)
  {
    if s != [] {
      var front, last := s[..|s| - 1], s[|s| - 1];
      FewerOccurrences(front);
      FirstOccurrencesList(front);
      assert s == front + [last];
      if last in front {
        var i :| 0 <= i < |front| && front[i] == last;
        assert s[i] == s[|s| - 1];
      }
    }
  }

  /** LIMIT counts rows: a page has as many objects as rows iff no object has two rows in it. */
  lemma PageObjectsIff(q: seq<Joined>, limit: nat, offset: nat)
    ensures var pgcs := PgcsOfRows(PageOf(q, limit, offset));
      && |FirstOccurrences(pgcs)| <= |PageOf(q, limit, offset)| <= limit
      && (|FirstOccurrences(pgcs)| == |PageOf(q, limit, offset)| <==> NoDuplicates(pgcs))
  {
    var page := PageOf(q, limit, offset);
    RowsWithFacts(page, Pgc(0));
    FewerOccurrences(PgcsOfRows(page));
  }

  /** The first row of an object says as much of the requested catalogs as any other. */
  lemma FirstRowSaysAll(db: Predicates, contents: Contents, p: SearchParams, f: Filter, t: Relation, names: seq<Relation>,
                        x: Joined, y: Joined)
    requires Writable(f) && NoDuplicates(names) && names != [] && DrivingTable(f) == Some(t)
    requires UniqueTables(contents, Others(names, t))
    requires x in Answer(db, contents, p, f, names) && y in Answer(db, contents, p, f, names) && x.pgc == y.pgc
    ensures x.parts - {t} == y.parts - {t}
  {
    hide Answer, UniqueTables;
    AnswerRowMade(db, contents, p, f, t, names, x);
    AnswerRowMade(db, contents, p, f, t, names, y);
  }

  // ---- A page full of one object ----

  function OtherRows(rows: seq<Joined>, p: Pgc): seq<Joined> {
    if rows == [] then [] else
      OtherRows(rows[..|rows| - 1], p) + if rows[|rows| - 1].pgc == p then [] else [rows[|rows| - 1]]
  }

  lemma {:induction false} TwoParts(rows: seq<Joined>, p: Pgc)
    ensures Listing(RowsWith(rows, p) + OtherRows(rows, p), rows)
  {
    if rows != [] {
      TwoParts(rows[..|rows| - 1], p);
      assert rows == rows[..|rows| - 1] + [rows[|rows| - 1]];
    }
  }

  lemma {:induction false} RowsWithSize(rows: seq<Joined>, p: Pgc)
    ensures |RowsWith(rows, p)| == AnswerRows.RowsOf(rows, p)
  {
    if rows != [] {
      var front, last := rows[..|rows| - 1], rows[|rows| - 1];
      RowsWithSize(front, p);
      assert rows == front + [last];
      RowsAppend(front, [last], p);
      OneRow(last, p);
    }
  }

  /** In some order the first page shows nothing but one object, if that has as many rows as the page. */
  lemma CrowdedPage(rows: seq<Joined>, p: Pgc, limit: nat) returns (q: seq<Joined>)
    requires limit <= AnswerRows.RowsOf(rows, p)
    ensures Listing(q, rows) && |PageOf(q, limit, 0)| == limit
    ensures forall x | x in PageOf(q, limit, 0) :: x.pgc == p
  {
    q := RowsWith(rows, p) + OtherRows(rows, p);
    TwoParts(rows, p);
    RowsWithSize(rows, p);
    RowsWithFacts(rows, p);
    assert q[0..] == q;
    assert PageOf(q, limit, 0) == RowsWith(rows, p)[..limit];
  }

  /** A search by name has no order: one object with enough names that match can fill its first page. */
  lemma NameSearchCrowds(db: Predicates, contents: Contents, name: string, names: seq<Relation>, p: Pgc, limit: nat)
    returns (q: seq<Joined>)
    requires NoDuplicates(names) && names != [] && UniqueTables(contents, Others(names, DESIGNATIONS))
    requires limit <= MatchingNames(db, name, contents(DESIGNATIONS), p)
    ensures Listing(q, Answer(db, contents, Named(name), NameFilter(), names)) && |PageOf(q, limit, 0)| == limit
    ensures forall x | x in PageOf(q, limit, 0) :: x.pgc == p
  {
    hide Answer, MatchingNames;
    NameSearchCounts(db, contents, name, names, p);
    q := CrowdedPage(Answer(db, contents, Named(name), NameFilter(), names), p, limit);
  }
}

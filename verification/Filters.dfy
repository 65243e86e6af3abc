/** Search filters: their three-valued meaning on a joined row, and the table that can drive the join. */
module Filters {
  import opened Collections
  import opened Schema

  type Relation = string

  const DESIGNATION: Relation := "layer2.designation"
  const DESIGNATIONS: Relation := "layer2.designations"
  const ICRS: Relation := "layer2.icrs"

  // ---- Three-valued logic ----

  datatype Truth = True | False | Unknown

  function Both(a: Truth, b: Truth): Truth {
    if a == False || b == False then False else if a == True && b == True then True else Unknown
  }

  function Either(a: Truth, b: Truth): Truth {
    if a == True || b == True then True else if a == False && b == False then False else Unknown
  }

  function OfBool(b: bool): Truth {
    if b then True else False
  }

  // ---- Rows ----

  /** The values of a search that the filters use; a missing key reads as NULL. */
  datatype Params = Params(ra: Option<real>, dec: Option<real>, design: Option<string>)

  datatype SearchRow = SearchRow(recordId: string, searchType: string, params: Params)

  /** A row of the join: the search row, the merged PGC, and the tables that are not all NULL in it. */
  datatype Joined = Joined(search: Option<SearchRow>, pgc: Pgc, parts: map<Relation, Summary>)

  function DesignIn(row: Joined, table: Relation): Option<string> {
    if table in row.parts && row.parts[table].Voted? then Some(row.parts[table].text) else None
  }

  /** A NaN is within no radius of anything. */
  function PositionIn(row: Joined): Option<(real, real)> {
    if ICRS in row.parts && row.parts[ICRS].Position? && row.parts[ICRS].ra.Estimate? && row.parts[ICRS].dec.Estimate?
    then Some((row.parts[ICRS].ra.mean, row.parts[ICRS].dec.mean)) else None
  }

  // ---- Filters ----

  datatype Filter =
    | PgcOneOf(pgcs: seq<Pgc>)
    | And(filters: seq<Filter>)
    | Or(filters: seq<Filter>)
    | DesignationEquals(designation: string)
    | DesignationClose(distance: int)
    | DesignationLike
    | InRadius(radius: real)

  /** The database's own functions, of which only their treatment of NULL matters. */
  datatype Predicates = Predicates(
    levenshtein: (string, string, int) -> int,
    like: (string, string) -> bool,
    within: (real, real, real, real, real) -> bool,
    distance: (real, real, real, real) -> real)

  predicate IsLeaf(f: Filter) {
    !f.And? && !f.Or?
  }

  function EvalLeaf(db: Predicates, f: Filter, row: Joined): Truth
    requires IsLeaf(f)
  {
    var params := if row.search.Some? then row.search.value.params else Params(None, None, None);
    match f
    case PgcOneOf(pgcs) => OfBool(row.pgc in pgcs)
    case DesignationEquals(text) =>
      var d := DesignIn(row, DESIGNATION);
      if d.None? then Unknown else OfBool(d.value == text)
    case DesignationClose(distance) =>
      var d := DesignIn(row, DESIGNATION);
      if d.None? || params.design.None? then Unknown
      else OfBool(db.levenshtein(d.value, params.design.value, distance) < distance)
    case DesignationLike =>
      // CONCAT leaves a NULL argument out
      var d := DesignIn(row, DESIGNATIONS);
      var pattern := "%" + (if params.design.Some? then params.design.value else "") + "%";
      if d.None? then Unknown else OfBool(db.like(d.value, pattern))
    case InRadius(radius) =>
      var p := PositionIn(row);
      if p.None? || params.ra.None? || params.dec.None? then Unknown
      else OfBool(db.within(params.ra.value, params.dec.value, p.value.0, p.value.1, radius))
  }

  function Eval(db: Predicates, f: Filter, row: Joined): Truth {
    match f
    case And(fs) => EvalAnd(db, fs, row)
    case Or(fs) => if fs == [] then True else EvalOr(db, fs, row)
    case _ => EvalLeaf(db, f, row)
  }

  function EvalAnd(db: Predicates, fs: seq<Filter>, row: Joined): Truth {
    if fs == [] then True else Both(Eval(db, fs[0], row), EvalAnd(db, fs[1..], row))
  }

  function EvalOr(db: Predicates, fs: seq<Filter>, row: Joined): Truth {
    if fs == [] then False else Either(Eval(db, fs[0], row), EvalOr(db, fs[1..], row))
  }

  // ---- Driving tables ----

  function DrivingTable(f: Filter): Option<Relation> {
    match f
    case PgcOneOf(_) => None
    case And(fs) => FirstDriving(fs)
    case Or(fs) => if fs != [] && AllDrive(fs, DrivingTable(fs[0])) then DrivingTable(fs[0]) else None
    case DesignationEquals(_) => Some(DESIGNATION)
    case DesignationClose(_) => Some(DESIGNATION)
    case DesignationLike => Some(DESIGNATIONS)
    case InRadius(_) => Some(ICRS)
  }

  function FirstDriving(fs: seq<Filter>): Option<Relation> {
    if fs == [] then None
    else if DrivingTable(fs[0]).Some? then DrivingTable(fs[0])
    else FirstDriving(fs[1..])
  }

  /** The set of the children's driving tables is `{table}`. */
  predicate AllDrive(fs: seq<Filter>, table: Option<Relation>) {
    if fs == [] then true else DrivingTable(fs[0]) == table && AllDrive(fs[1..], table)
  }

  /** `driving_table` as the classes compute it: a scan with early return, or a set of the children's answers. */
  method ComputeDrivingTable(f: Filter) returns (table: Option<Relation>)
    ensures table == DrivingTable(f)
    decreases f
  {
    match f
    case And(fs) =>
      for i := 0 to |fs|
        invariant FirstDriving(fs) == FirstDriving(fs[i..])
      {
        assert fs[i..][1..] == fs[i + 1..];
        table := ComputeDrivingTable(fs[i]);
        if table.Some? {
          return;
        }
      }
      table := None;
    case Or(fs) =>
      var tables := {};
      for i := 0 to |fs|
        invariant tables == set k | 0 <= k < i :: DrivingTable(fs[k])
      {
        var t := ComputeDrivingTable(fs[i]);
        tables := tables + {t};
      }
      table := PopIfSingle(tables);
      OneDrivingTable(fs, tables);
    case _ =>
      table := DrivingTable(f);
  }

  function PopIfSingle(tables: set<Option<Relation>>): Option<Relation> {
    if |tables| == 1 then
      Singleton(tables);
      var t :| t in tables; t
    else None
  }

  lemma Singleton<T>(s: set<T>)
    requires |s| == 1
    ensures exists x :: x in s
    ensures forall x, y | x in s && y in s :: x == y
  {
    var x := Member(s);
    assert s == {x} by {
      assert |s - {x}| == 0;
      assert s - {x} == {};
    }
  }

  lemma {:induction false} AllDriveMeans(fs: seq<Filter>, table: Option<Relation>)
    ensures AllDrive(fs, table) <==> forall k | 0 <= k < |fs| :: DrivingTable(fs[k]) == table
  {
    if fs != [] {
      AllDriveMeans(fs[1..], table);
      assert forall k | 0 < k < |fs| :: fs[k] == fs[1..][k - 1];
    }
  }

  lemma OneDrivingTable(fs: seq<Filter>, tables: set<Option<Relation>>)
    requires tables == set k | 0 <= k < |fs| :: DrivingTable(fs[k])
    ensures PopIfSingle(tables) == DrivingTable(Or(fs))
  {
    if fs != [] {
      var first := DrivingTable(fs[0]);
      AllDriveMeans(fs, first);
      assert first in tables;
      if AllDrive(fs, first) {
        assert tables == {first};
      }
      if |tables| == 1 {
        Singleton(tables);
        forall k | 0 <= k < |fs| ensures DrivingTable(fs[k]) == first {
          assert DrivingTable(fs[k]) in tables;
        }
      }
    }
  }

  // ---- Soundness ----

  /** A filter is never true of a row its driving table is missing from. */
  lemma {:induction false} DrivingTableSound(db: Predicates, f: Filter, row: Joined)
    requires DrivingTable(f).Some? && DrivingTable(f).value !in row.parts
    ensures Eval(db, f, row) != True
    decreases f, 0
  {
    match f
    case And(fs) => FirstDrivingSound(db, fs, row);
    case Or(fs) => AllDriveSound(db, fs, row, DrivingTable(f).value);
    case _ =>
  }

  /** The analysis does not find every strict filter: this one needs the designations, and no table drives it. */
  lemma DrivingTableMissed(db: Predicates, row: Joined, radius: real)
    requires DESIGNATIONS !in row.parts
    ensures var f := Or([And([InRadius(radius), DesignationLike]), DesignationLike]);
      DrivingTable(f) == None && Eval(db, f, row) != True
  {
    var inner, like := [InRadius(radius), DesignationLike], [DesignationLike];
    assert inner[1..] == like && like[1..] == [];
    assert DrivingTable(inner[0]) == Some(ICRS);
    assert FirstDriving(inner) == Some(ICRS);
    assert Eval(db, like[0], row) == Unknown;
    assert EvalAnd(db, inner, row) != True by {
      assert EvalAnd(db, like, row) == Both(Eval(db, like[0], row), EvalAnd(db, like[1..], row));
    }
    var outer := [And(inner), DesignationLike];
    assert outer[1..] == like;
    assert DrivingTable(outer[0]) == Some(ICRS);
    assert !AllDrive(like, Some(ICRS)) by {
      assert DrivingTable(like[0]) == Some(DESIGNATIONS);
    }
    assert !AllDrive(outer, DrivingTable(outer[0]));
    assert Eval(db, outer[0], row) != True;
    assert EvalOr(db, outer, row) != True by {
      assert EvalOr(db, like, row) == Either(Eval(db, like[0], row), EvalOr(db, like[1..], row));
    }
  }

  lemma {:induction false} FirstDrivingSound(db: Predicates, fs: seq<Filter>, row: Joined)
    requires FirstDriving(fs).Some? && FirstDriving(fs).value !in row.parts
    ensures EvalAnd(db, fs, row) != True
    decreases fs, 1
  {
    if DrivingTable(fs[0]).Some? {
      DrivingTableSound(db, fs[0], row);
    } else {
      FirstDrivingSound(db, fs[1..], row);
    }
  }

  lemma {:induction false} AllDriveSound(db: Predicates, fs: seq<Filter>, row: Joined, table: Relation)
    requires AllDrive(fs, Some(table)) && table !in row.parts
    ensures EvalOr(db, fs, row) != True
    decreases fs, 1
  {
    if fs != [] {
      DrivingTableSound(db, fs[0], row);
      AllDriveSound(db, fs[1..], row, table);
    }
  }

  // ---- What the analysis misses ----

  function LeafTable(f: Filter): Option<Relation>
    requires IsLeaf(f)
  {
    match f
    case DesignationEquals(_) => Some(DESIGNATION)
    case DesignationClose(_) => Some(DESIGNATION)
    case DesignationLike => Some(DESIGNATIONS)
    case InRadius(_) => Some(ICRS)
    case _ => None
  }

  /** The tables a filter is strict on: a conjunction on those of any conjunct, a disjunction on those of every branch. */
  function Strict(f: Filter): set<Relation> {
    match f
    case And(fs) => StrictInAny(fs)
    case Or(fs) => if fs == [] then {} else StrictInAll(fs)
    case _ => if LeafTable(f).Some? then {LeafTable(f).value} else {}
  }

  function StrictInAny(fs: seq<Filter>): set<Relation> {
    if fs == [] then {} else Strict(fs[0]) + StrictInAny(fs[1..])
  }

  function StrictInAll(fs: seq<Filter>): set<Relation>
    requires fs != []
  {
    if |fs| == 1 then Strict(fs[0]) else Strict(fs[0]) * StrictInAll(fs[1..])
  }

  /** A filter is never true of a row that lacks a table it is strict on. */
  lemma {:induction false} StrictSound(db: Predicates, f: Filter, row: Joined, t: Relation)
    requires t in Strict(f) && t !in row.parts
    ensures Eval(db, f, row) != True
    decreases f, 0
  {
    match f
    case And(fs) => StrictInAnySound(db, fs, row, t);
    case Or(fs) => StrictInAllSound(db, fs, row, t);
    case _ =>
  }

  lemma {:induction false} StrictInAnySound(db: Predicates, fs: seq<Filter>, row: Joined, t: Relation)
    requires t in StrictInAny(fs) && t !in row.parts
    ensures EvalAnd(db, fs, row) != True
    decreases fs, 1
  {
    if t in Strict(fs[0]) {
      StrictSound(db, fs[0], row, t);
    } else {
      StrictInAnySound(db, fs[1..], row, t);
    }
  }

  lemma {:induction false} StrictInAllSound(db: Predicates, fs: seq<Filter>, row: Joined, t: Relation)
    requires fs != [] && t in StrictInAll(fs) && t !in row.parts
    ensures EvalOr(db, fs, row) != True
    decreases fs, 1
  {
    StrictSound(db, fs[0], row, t);
    if |fs| > 1 {
      StrictInAllSound(db, fs[1..], row, t);
    } else {
      assert EvalOr(db, fs[1..], row) == False;
    }
  }

  /** Every leaf that does not need `t` accepts the row. */
  ghost predicate OthersAccept(db: Predicates, f: Filter, row: Joined, t: Relation) {
    match f
    case And(fs) => forall g | g in fs :: OthersAccept(db, g, row, t)
    case Or(fs) => forall g | g in fs :: OthersAccept(db, g, row, t)
    case _ => LeafTable(f) != Some(t) ==> EvalLeaf(db, f, row) == True
  }

  /** A filter that is not strict on a table is true once the leaves that do not need the table are. */
  lemma {:induction false} StrictComplete(db: Predicates, f: Filter, row: Joined, t: Relation)
    requires t !in Strict(f) && OthersAccept(db, f, row, t)
    ensures Eval(db, f, row) == True
    decreases f, 0
  {
    match f
    case And(fs) => NotStrictInAny(db, fs, row, t);
    case Or(fs) =>
      if fs != [] {
        NotStrictInAll(db, fs, row, t);
      }
    case _ =>
  }

  lemma {:induction false} NotStrictInAny(db: Predicates, fs: seq<Filter>, row: Joined, t: Relation)
    requires t !in StrictInAny(fs) && forall g | g in fs :: OthersAccept(db, g, row, t)
    ensures EvalAnd(db, fs, row) == True
    decreases fs, 1
  {
    if fs != [] {
      assert fs[0] in fs && forall g | g in fs[1..] :: g in fs;
      StrictComplete(db, fs[0], row, t);
      NotStrictInAny(db, fs[1..], row, t);
    }
  }

  lemma {:induction false} NotStrictInAll(db: Predicates, fs: seq<Filter>, row: Joined, t: Relation)
    requires fs != [] && t !in StrictInAll(fs) && forall g | g in fs :: OthersAccept(db, g, row, t)
    ensures EvalOr(db, fs, row) == True
    decreases fs, 1
  {
    assert fs[0] in fs && forall g | g in fs[1..] :: g in fs;
    if t !in Strict(fs[0]) {
      StrictComplete(db, fs[0], row, t);
    } else {
      NotStrictInAll(db, fs[1..], row, t);
    }
  }

  /** No conjunction mixes two strict tables. */
  ghost predicate Unmixed(f: Filter) {
    match f
    case And(fs) => (forall a, b | a in Strict(f) && b in Strict(f) :: a == b) && forall g | g in fs :: Unmixed(g)
    case Or(fs) => forall g | g in fs :: Unmixed(g)
    case _ => true
  }

  /** The tables the analysis reports. */
  function Reported(table: Option<Relation>): set<Relation> {
    if table.Some? then {table.value} else {}
  }

  /** The analysis reports strict tables only; on a filter that does not mix tables it reports every one. */
  lemma {:induction false} ReportedIsStrict(f: Filter)
    ensures Reported(DrivingTable(f)) <= Strict(f)
    ensures Unmixed(f) ==> Strict(f) == Reported(DrivingTable(f))
    decreases f, 0
  {
    match f
    case And(fs) =>
      FirstIsStrict(fs);
      if Unmixed(f) {
        assert FirstDriving(fs).Some? ==> FirstDriving(fs).value in Strict(f);
      }
    case Or(fs) =>
      if fs != [] {
        AllAreStrict(fs, DrivingTable(fs[0]));
        ReportedIsStrict(fs[0]);
        InAllIsInEach(fs, fs[0]);
        AllDriveMeans(fs, DrivingTable(fs[0]));
        if Unmixed(f) && !AllDrive(fs, DrivingTable(fs[0])) {
          var k :| 0 <= k < |fs| && DrivingTable(fs[k]) != DrivingTable(fs[0]);
          ReportedIsStrict(fs[k]);
          InAllIsInEach(fs, fs[k]);
        }
      }
    case _ =>
  }

  lemma {:induction false} InAllIsInEach(fs: seq<Filter>, g: Filter)
    requires g in fs
    ensures StrictInAll(fs) <= Strict(g)
  {
    if g != fs[0] {
      InAllIsInEach(fs[1..], g);
    }
  }

  lemma {:induction false} FirstIsStrict(fs: seq<Filter>)
    ensures Reported(FirstDriving(fs)) <= StrictInAny(fs)
    ensures (forall g | g in fs :: Unmixed(g)) && FirstDriving(fs).None? ==> StrictInAny(fs) == {}
    decreases fs, 1
  {
    if fs != [] {
      assert fs[0] in fs && forall g | g in fs[1..] :: g in fs;
      ReportedIsStrict(fs[0]);
      FirstIsStrict(fs[1..]);
    }
  }

  lemma {:induction false} AllAreStrict(fs: seq<Filter>, table: Option<Relation>)
    requires fs != []
    ensures AllDrive(fs, table) ==> Reported(table) <= StrictInAll(fs)
    decreases fs, 1
  {
    ReportedIsStrict(fs[0]);
    if |fs| > 1 {
      AllAreStrict(fs[1..], table);
    }
  }

  /** On filters that do not mix tables the analysis is complete: it gives None just when no table is strict. */
  lemma DrivingTableNoneIff(f: Filter)
    requires Unmixed(f)
    ensures DrivingTable(f) == None <==> Strict(f) == {}
  {
    ReportedIsStrict(f);
    assert DrivingTable(f).Some? ==> DrivingTable(f).value in Strict(f);
  }

  // ---- Several search types ----

  /** A search type with its filter; the keys of a mapping, so distinct. */
  datatype Search = Search(name: string, filter: Filter)

  function TypeIs(row: Joined, name: string): Truth {
    if row.search.None? then Unknown else OfBool(row.search.value.searchType == name)
  }

  /** What the WHERE clause is meant to say: the row's own search type's filter holds. */
  function EvalSearches(db: Predicates, searches: seq<Search>, row: Joined): Truth {
    if searches == [] then False else
      Either(Both(TypeIs(row, searches[0].name), Eval(db, searches[0].filter, row)), EvalSearches(db, searches[1..], row))
  }

  function FiltersOf(searches: seq<Search>): seq<Filter> {
    if searches == [] then [] else [searches[0].filter] + FiltersOf(searches[1..])
  }

  /** The driving table of a query: the one all its filters share. */
  function QueryDriving(searches: seq<Search>): Option<Relation> {
    DrivingTable(Or(FiltersOf(searches)))
  }

  lemma {:induction false} SearchesNeedDriving(db: Predicates, searches: seq<Search>, row: Joined, table: Relation)
    requires AllDrive(FiltersOf(searches), Some(table)) && table !in row.parts
    ensures EvalSearches(db, searches, row) != True
  {
    if searches != [] {
      assert FiltersOf(searches)[1..] == FiltersOf(searches[1..]);
      DrivingTableSound(db, searches[0].filter, row);
      SearchesNeedDriving(db, searches[1..], row, table);
    }
  }

  lemma QueryDrivingSound(db: Predicates, searches: seq<Search>, row: Joined)
    requires QueryDriving(searches).Some? && QueryDriving(searches).value !in row.parts
    ensures EvalSearches(db, searches, row) != True
  {
    SearchesNeedDriving(db, searches, row, QueryDriving(searches).value);
  }
}

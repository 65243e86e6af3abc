/** What the expressions of a query mean on a joined row, and that the text of each filter means the filter. */
module SqlMeaning {
  import opened Collections
  import opened Schema
  import opened Filters
  import opened Binding
  import Sql

  // ---- Values ----

  /** `JsonNumber` is the text of a number in a JSON object; a point is planar until it is cast. */
  datatype Datum =
    | Null
    | Numeric(value: real)
    | Spread(variance: real)
    | Whole(n: int)
    | Chars(text: string)
    | JsonNumber(value: real)
    | Object(pgc: Pgc)
    | Json(params: Params)
    | Planar(x: real, y: real)
    | OnSphere(longitude: real, latitude: real)
    | Flag(flag: bool)
    | Wrong

  /** The mean of an estimate; a NaN counts as NULL. */
  function MeanOf(e: Estimate): Datum {
    if e.Estimate? then Numeric(e.mean) else Datum.Null
  }

  /** The error column, whose square the variance is. */
  function ErrorOf(e: Estimate): Datum {
    if e.Estimate? then Spread(e.variance) else Numeric(0.0)
  }

  /** A column of a layer-2 row; one that the row's table does not have reads as NULL. */
  function ColumnOf(row: Summary, column: string): Datum {
    match row
    case Voted(text) => if column == "design" || column == "type_name" then Chars(text) else Datum.Null
    case Position(ra, dec) =>
      if column == "ra" then MeanOf(ra)
      else if column == "dec" then MeanOf(dec)
      else if column == "e_ra" then ErrorOf(ra)
      else if column == "e_dec" then ErrorOf(dec)
      else Datum.Null
    case Velocity(cz) =>
      if column == "cz" then MeanOf(cz) else if column == "e_cz" then ErrorOf(cz) else Datum.Null
  }

  function TableColumn(table: Relation, column: string, row: Joined): Datum {
    if table !in row.parts then Datum.Null
    else if column == "pgc" then Object(row.pgc)
    else ColumnOf(row.parts[table], column)
  }

  /** A name: a constant, the merged PGC, a column of the search parameters, or one of a layer-2 table. */
  function NameValue(path: seq<string>, row: Joined): Datum {
    if path == ["true"] then Flag(true)
    else if path == ["false"] then Flag(false)
    else if path == ["1"] then Whole(1)
    else if path == ["pgc"] then Object(row.pgc)
    else if path == ["sp", "search_type"] then if row.search.Some? then Chars(row.search.value.searchType) else Datum.Null
    else if path == ["sp", "params"] then if row.search.Some? then Json(row.search.value.params) else Datum.Null
    else if |path| == 2 then TableColumn("layer2." + path[0], path[1], row)
    else if |path| == 3 && path[0] == "layer2" then TableColumn("layer2." + path[1], path[2], row)
    else Wrong
  }

  function FixedValue(v: Value): Datum {
    match v
    case OfText(text) => Chars(text)
    case OfInt(n) => Whole(n)
    case OfReal(x) => Numeric(x)
    case OfPgc(p) => Object(p)
    case OfJson(params) => Json(params)
  }

  function CastTo(d: Datum, kind: string): Datum {
    if d.Null? then Datum.Null
    else if d.JsonNumber? && kind == "float" then Numeric(d.value)
    else if d.Planar? && kind == "geography" then OnSphere(d.x, d.y)
    else Wrong
  }

  function JsonReal(x: Option<real>): Datum {
    if x.Some? then JsonNumber(x.value) else Datum.Null
  }

  function JsonText(x: Option<string>): Datum {
    if x.Some? then Chars(x.value) else Datum.Null
  }

  /** The value of a key as text. */
  function FieldOf(d: Datum, key: Datum): Datum {
    if d.Null? || key.Null? then Datum.Null
    else if !d.Json? || !key.Chars? then Wrong
    else if key.text == "ra" then JsonReal(d.params.ra)
    else if key.text == "dec" then JsonReal(d.params.dec)
    else if key.text == "design" then JsonText(d.params.design)
    else Datum.Null
  }

  /** CONCAT leaves NULLs out. */
  function Concat(args: seq<Datum>): Datum {
    if args == [] then Chars("") else
      var rest := Concat(args[1..]);
      if !rest.Chars? then Wrong
      else if args[0].Null? then rest
      else if args[0].Chars? then Chars(args[0].text + rest.text)
      else Wrong
  }

  predicate AnyNull(args: seq<Datum>) {
    Datum.Null in args
  }

  /** The functions of the database that the query calls; all but CONCAT are NULL on NULL. */
  function CallOf(db: Predicates, name: string, args: seq<Datum>): Datum {
    if name == "CONCAT" then Concat(args)
    else if AnyNull(args) then Datum.Null
    else if name == "ST_MakePoint" && |args| == 2 && args[0].Numeric? && args[1].Numeric? then
      Planar(args[0].value, args[1].value)
    else if name == "ST_DWithin" && |args| == 4 && args[0].OnSphere? && args[1].OnSphere? && args[2].Numeric?
        && args[3] == Flag(false) then
      Flag(db.within(args[0].longitude, args[0].latitude, args[1].longitude, args[1].latitude, args[2].value))
    else if name == "ST_Distance" && |args| == 3 && args[0].OnSphere? && args[1].OnSphere? && args[2] == Flag(false) then
      Numeric(db.distance(args[0].longitude, args[0].latitude, args[1].longitude, args[1].latitude))
    else if name == "levenshtein_less_equal" && |args| == 3 && args[0].Chars? && args[1].Chars? && args[2].Whole? then
      Whole(db.levenshtein(args[0].text, args[1].text, args[2].n))
    else Wrong
  }

  function EvalExpr(db: Predicates, e: Sql.Expr, row: Joined): Datum {
    match e
    case Name(path) => NameValue(path, row)
    case Text(text) => Chars(text)
    case Fixed(value) => FixedValue(value)
    case Apply(name, args) => CallOf(db, name, EvalList(db, args, row))
    case Field(of, key) => FieldOf(EvalExpr(db, of, row), EvalExpr(db, key, row))
    case Cast(of, kind) => CastTo(EvalExpr(db, of, row), kind)
  }

  function EvalList(db: Predicates, args: seq<Sql.Expr>, row: Joined): seq<Datum> {
    if args == [] then [] else [EvalExpr(db, args[0], row)] + EvalList(db, args[1..], row)
  }

  // ---- Conditions ----

  /** A comparison of values of the wrong types has no meaning. */
  function Compared(db: Predicates, op: Sql.Operator, a: Datum, b: Datum): Option<Truth> {
    if a.Null? || b.Null? then Some(Unknown)
    else match op
      case IsEqual =>
        if (a.Chars? && b.Chars?) || (a.Whole? && b.Whole?) then Some(OfBool(a == b)) else Option.None
      case IsLess => if a.Whole? && b.Whole? then Some(OfBool(a.n < b.n)) else Option.None
      case IsLike => if a.Chars? && b.Chars? then Some(OfBool(db.like(a.text, b.text))) else Option.None
  }

  function EvalCond(db: Predicates, c: Sql.Cond, row: Joined): Option<Truth> {
    match c
    case Compare(op, left, right) => Compared(db, op, EvalExpr(db, left, row), EvalExpr(db, right, row))
    case OneOf(left, list) =>
      var a, ds := EvalExpr(db, left, row), EvalList(db, list, row);
      if a.Object? && forall d | d in ds :: d.Object? then Some(OfBool(a in ds)) else Option.None
    case Holds(call) =>
      var d := EvalExpr(db, call, row);
      if d.Null? then Some(Unknown) else if d.Flag? then Some(OfBool(d.flag)) else Option.None
  }

  /** What the database makes of the text of a condition. */
  function ConditionOfText(db: Predicates, ps: seq<Piece>, row: Joined): Option<Truth> {
    var c := Sql.ReadCond(ps);
    if c.None? then Option.None else EvalCond(db, c.value, row)
  }

  // ---- Leaves ----

  function Param(key: string): Sql.Expr {
    Sql.Field(Sql.Name(["sp", "params"]), Sql.Text(key))
  }

  function PgcExprs(pgcs: seq<Pgc>): seq<Sql.Expr> {
    if pgcs == [] then [] else [Sql.Fixed(OfPgc(pgcs[0]))] + PgcExprs(pgcs[1..])
  }

  /** A point on the sphere. */
  function PointAt(x: Sql.Expr, y: Sql.Expr): Sql.Expr {
    Sql.Cast(Sql.Apply("ST_MakePoint", [x, y]), "geography")
  }

  function SearchPoint(): Sql.Expr {
    PointAt(Sql.Cast(Param("ra"), "float"), Sql.Cast(Param("dec"), "float"))
  }

  function ObjectPoint(): Sql.Expr {
    PointAt(Sql.Name(["layer2", "icrs", "ra"]), Sql.Name(["layer2", "icrs", "dec"]))
  }

  function LeafCond(f: Filter): Sql.Cond
    requires IsLeaf(f)
  {
    match f
    case PgcOneOf(pgcs) => Sql.OneOf(Sql.Name(["pgc"]), PgcExprs(pgcs))
    case DesignationEquals(design) =>
      Sql.Compare(Sql.IsEqual, Sql.Name(["designation", "design"]), Sql.Fixed(OfText(design)))
    case DesignationClose(distance) =>
      var name := Sql.Name(["layer2", "designation", "design"]);
      Sql.Compare(Sql.IsLess, Sql.Apply("levenshtein_less_equal", [name, Param("design"), Sql.Fixed(OfInt(distance))]),
        Sql.Fixed(OfInt(distance)))
    case DesignationLike =>
      Sql.Compare(Sql.IsLike, Sql.Name(["layer2", "designations", "design"]),
        Sql.Apply("CONCAT", [Sql.Text("%"), Param("design"), Sql.Text("%")]))
    case InRadius(radius) =>
      Sql.Holds(Sql.Apply("ST_DWithin", [SearchPoint(), ObjectPoint(), Sql.Fixed(OfReal(radius)), Sql.Name(["false"])]))
  }

  lemma ParamValue(db: Predicates, key: string, row: Joined)
    requires key in ["ra", "dec", "design"]
    ensures var params :=
      if row.search.Some? then row.search.value.params else Params(Option.None, Option.None, Option.None);
      && (key == "ra" ==> EvalExpr(db, Param(key), row) == JsonReal(params.ra))
      && (key == "dec" ==> EvalExpr(db, Param(key), row) == JsonReal(params.dec))
      && (key == "design" ==> EvalExpr(db, Param(key), row) == JsonText(params.design))
  {
    assert EvalExpr(db, Sql.Name(["sp", "params"]), row) == NameValue(["sp", "params"], row);
    assert EvalExpr(db, Sql.Text(key), row) == Chars(key);
  }

  lemma PathValue(table: string, column: string, row: Joined)
    ensures NameValue(["layer2", table, column], row) == TableColumn("layer2." + table, column, row)
  {}

  lemma {:induction false} PgcValues(db: Predicates, pgcs: seq<Pgc>, row: Joined)
    ensures var ds := EvalList(db, PgcExprs(pgcs), row);
      && (forall d | d in ds :: d.Object?)
      && forall p :: Object(p) in ds <==> p in pgcs
  {
    if pgcs != [] {
      PgcValues(db, pgcs[1..], row);
      assert PgcExprs(pgcs)[1..] == PgcExprs(pgcs[1..]);
    }
  }

  lemma EvalTwo(db: Predicates, a: Sql.Expr, b: Sql.Expr, row: Joined)
    ensures EvalList(db, [a, b], row) == [EvalExpr(db, a, row), EvalExpr(db, b, row)]
  {
    assert [a, b][1..] == [b] && [b][1..] == [];
    assert EvalList(db, [], row) == [];
    assert EvalList(db, [b], row) == [EvalExpr(db, b, row)] + EvalList(db, [b][1..], row);
  }

  lemma EvalThree(db: Predicates, a: Sql.Expr, b: Sql.Expr, c: Sql.Expr, row: Joined)
    ensures EvalList(db, [a, b, c], row) == [EvalExpr(db, a, row), EvalExpr(db, b, row), EvalExpr(db, c, row)]
  {
    assert [a, b, c][1..] == [b, c];
    EvalTwo(db, b, c, row);
  }

  lemma EvalFour(db: Predicates, a: Sql.Expr, b: Sql.Expr, c: Sql.Expr, d: Sql.Expr, row: Joined)
    ensures EvalList(db, [a, b, c, d], row) ==
      [EvalExpr(db, a, row), EvalExpr(db, b, row), EvalExpr(db, c, row), EvalExpr(db, d, row)]
  {
    assert [a, b, c, d][1..] == [b, c, d];
    EvalThree(db, b, c, d, row);
  }

  /** The point of two numbers, or NULL. */
  lemma PointValue(db: Predicates, x: Sql.Expr, y: Sql.Expr, row: Joined)
    requires EvalExpr(db, x, row).Numeric? || EvalExpr(db, x, row).Null?
    requires EvalExpr(db, y, row).Numeric? || EvalExpr(db, y, row).Null?
    ensures var a, b := EvalExpr(db, x, row), EvalExpr(db, y, row);
      EvalExpr(db, PointAt(x, y), row) == if a.Null? || b.Null? then Datum.Null else OnSphere(a.value, b.value)
  {
    EvalTwo(db, x, y, row);
    var ds := EvalList(db, [x, y], row);
    assert EvalExpr(db, Sql.Apply("ST_MakePoint", [x, y]), row) == CallOf(db, "ST_MakePoint", ds);
    assert AnyNull(ds) <==> ds[0].Null? || ds[1].Null?;
  }

  lemma SearchPointValue(db: Predicates, row: Joined)
    ensures var params :=
      if row.search.Some? then row.search.value.params else Params(Option.None, Option.None, Option.None);
      EvalExpr(db, SearchPoint(), row) ==
        if params.ra.None? || params.dec.None? then Datum.Null else OnSphere(params.ra.value, params.dec.value)
  {
    ParamValue(db, "ra", row);
    ParamValue(db, "dec", row);
    hide Param;
    assert EvalExpr(db, Sql.Cast(Param("ra"), "float"), row) == CastTo(EvalExpr(db, Param("ra"), row), "float");
    assert EvalExpr(db, Sql.Cast(Param("dec"), "float"), row) == CastTo(EvalExpr(db, Param("dec"), row), "float");
    PointValue(db, Sql.Cast(Param("ra"), "float"), Sql.Cast(Param("dec"), "float"), row);
  }

  /** A layer-2 row in the table of positions is a position. */
  lemma ObjectPointValue(db: Predicates, row: Joined)
    ensures EvalExpr(db, ObjectPoint(), row) ==
      if PositionIn(row).None? then Datum.Null else OnSphere(PositionIn(row).value.0, PositionIn(row).value.1)
  {
    var x, y := Sql.Name(["layer2", "icrs", "ra"]), Sql.Name(["layer2", "icrs", "dec"]);
    PathValue("icrs", "ra", row);
    PathValue("icrs", "dec", row);
    assert "layer2." + "icrs" == ICRS;
    PointValue(db, x, y, row);
  }

  lemma DesignValue(table: string, row: Joined)
    ensures NameValue(["layer2", table, "design"], row) ==
      var d := DesignIn(row, "layer2." + table); if d.Some? then Chars(d.value) else Datum.Null
  {
    PathValue(table, "design", row);
  }

  lemma RadiusMeans(db: Predicates, radius: real, row: Joined)
    ensures EvalCond(db, LeafCond(InRadius(radius)), row) == Some(EvalLeaf(db, InRadius(radius), row))
  {
    var size, flat := Sql.Fixed(OfReal(radius)), Sql.Name(["false"]);
    SearchPointValue(db, row);
    ObjectPointValue(db, row);
    hide SearchPoint, ObjectPoint;
    EvalFour(db, SearchPoint(), ObjectPoint(), size, flat, row);
    var ds := EvalList(db, [SearchPoint(), ObjectPoint(), size, flat], row);
    assert ds[2] == Numeric(radius) && ds[3] == Flag(false);
    assert AnyNull(ds) <==> ds[0].Null? || ds[1].Null?;
    assert EvalExpr(db, Sql.Apply("ST_DWithin", [SearchPoint(), ObjectPoint(), size, flat]), row) ==
      CallOf(db, "ST_DWithin", ds);
  }

  lemma CloseMeans(db: Predicates, distance: int, row: Joined)
    ensures EvalCond(db, LeafCond(DesignationClose(distance)), row) == Some(EvalLeaf(db, DesignationClose(distance), row))
  {
    hide NameValue, FieldOf, CallOf;
    var name, limit := Sql.Name(["layer2", "designation", "design"]), Sql.Fixed(OfInt(distance));
    DesignValue("designation", row);
    assert "layer2." + "designation" == DESIGNATION;
    ParamValue(db, "design", row);
    hide Param;
    EvalThree(db, name, Param("design"), limit, row);
    var ds := EvalList(db, [name, Param("design"), limit], row);
    assert ds[2] == Whole(distance);
    assert EvalExpr(db, Sql.Apply("levenshtein_less_equal", [name, Param("design"), limit]), row) ==
      CallOf(db, "levenshtein_less_equal", ds);
    assert EvalExpr(db, limit, row) == Whole(distance);
    LevenshteinCall(db, ds, distance);
  }

  lemma LevenshteinCall(db: Predicates, ds: seq<Datum>, distance: int)
    requires |ds| == 3 && (ds[0].Chars? || ds[0].Null?) && (ds[1].Chars? || ds[1].Null?) && ds[2] == Whole(distance)
    ensures CallOf(db, "levenshtein_less_equal", ds) ==
      if ds[0].Null? || ds[1].Null? then Datum.Null else Whole(db.levenshtein(ds[0].text, ds[1].text, distance))
  {
    assert AnyNull(ds) <==> ds[0].Null? || ds[1].Null?;
  }

  lemma ConcatThree(a: Datum, b: Datum, c: Datum)
    requires a.Chars? && (b.Chars? || b.Null?) && c.Chars?
    ensures Concat([a, b, c]) == Chars(a.text + (if b.Chars? then b.text else "") + c.text)
  {
    assert [a, b, c][1..] == [b, c] && [b, c][1..] == [c] && [c][1..] == [];
    assert Concat([]) == Chars("");
    assert Concat([c]) == Chars(c.text + "") && c.text + "" == c.text;
    assert Concat([b, c]) == if b.Null? then Concat([c]) else Chars(b.text + c.text);
    if b.Null? {
      assert a.text + "" + c.text == a.text + c.text;
    } else {
      assert a.text + (b.text + c.text) == a.text + b.text + c.text;
    }
  }

  lemma LikeMeans(db: Predicates, row: Joined)
    ensures EvalCond(db, LeafCond(DesignationLike), row) == Some(EvalLeaf(db, DesignationLike, row))
  {
    hide NameValue, FieldOf, Concat;
    var name, mark := Sql.Name(["layer2", "designations", "design"]), Sql.Text("%");
    DesignValue("designations", row);
    assert "layer2." + "designations" == DESIGNATIONS;
    ParamValue(db, "design", row);
    hide Param;
    EvalThree(db, mark, Param("design"), mark, row);
    ConcatThree(Chars("%"), EvalExpr(db, Param("design"), row), Chars("%"));
    assert EvalExpr(db, Sql.Apply("CONCAT", [mark, Param("design"), mark]), row) ==
      Concat(EvalList(db, [mark, Param("design"), mark], row));
  }

  lemma DesignShort(row: Joined)
    ensures NameValue(["designation", "design"], row) ==
      var d := DesignIn(row, DESIGNATION); if d.Some? then Chars(d.value) else Datum.Null
  {
    assert NameValue(["designation", "design"], row) == TableColumn("layer2." + "designation", "design", row);
    assert "layer2." + "designation" == DESIGNATION;
  }

  lemma EqualsMeans(db: Predicates, design: string, row: Joined)
    ensures EvalCond(db, LeafCond(DesignationEquals(design)), row) == Some(EvalLeaf(db, DesignationEquals(design), row))
  {
    var name := Sql.Name(["designation", "design"]);
    DesignShort(row);
    hide NameValue;
    assert EvalExpr(db, name, row) == NameValue(["designation", "design"], row);
    assert EvalExpr(db, Sql.Fixed(OfText(design)), row) == Chars(design);
  }

  lemma OneOfMeans(db: Predicates, pgcs: seq<Pgc>, row: Joined)
    ensures EvalCond(db, LeafCond(PgcOneOf(pgcs)), row) == Some(EvalLeaf(db, PgcOneOf(pgcs), row))
  {
    PgcValues(db, pgcs, row);
    assert EvalExpr(db, Sql.Name(["pgc"]), row) == Object(row.pgc);
  }

  /** The condition of each leaf means the leaf, on every row and with every NULL. */
  lemma LeafCondMeans(db: Predicates, f: Filter, row: Joined)
    requires IsLeaf(f)
    ensures EvalCond(db, LeafCond(f), row) == Some(EvalLeaf(db, f, row))
  {
    match f
    case PgcOneOf(pgcs) => OneOfMeans(db, pgcs, row);
    case DesignationEquals(design) => EqualsMeans(db, design, row);
    case DesignationClose(distance) => CloseMeans(db, distance, row);
    case DesignationLike => LikeMeans(db, row);
    case InRadius(radius) => RadiusMeans(db, radius, row);
  }
}

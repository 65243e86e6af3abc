/** The tables that a query's text names, against those that the analysis of queries takes it to name. */
module NamedTables {
  import opened Collections
  import opened Filters
  import opened Binding
  import FilterText
  import Rendering
  import QueryPlan
  import opened SearchResults
  import BatchQuery
  import Sql
  import opened SqlMeaning
  import opened QueryTexts
  import opened WhereTexts

  /** `layer2.t.column` and `t.column` are of the table `layer2.t`; `sp` is the list of searches. */
  function TableOfName(path: seq<string>): set<Relation> {
    if |path| == 3 && path[0] == "layer2" then {"layer2." + path[1]}
    else if |path| == 2 && path[0] != "sp" then {"layer2." + path[0]}
    else {}
  }

  function TablesOf(e: Sql.Expr): set<Relation> {
    match e
    case Name(path) => TableOfName(path)
    case Apply(_, args) => TablesOfAll(args)
    case Field(of, key) => TablesOf(of) + TablesOf(key)
    case Cast(of, _) => TablesOf(of)
    case _ => {}
  }

  function TablesOfAll(es: seq<Sql.Expr>): set<Relation> {
    if es == [] then {} else TablesOf(es[0]) + TablesOfAll(es[1..])
  }

  function TablesOfCond(c: Sql.Cond): set<Relation> {
    match c
    case Compare(_, left, right) => TablesOf(left) + TablesOf(right)
    case OneOf(left, list) => TablesOf(left) + TablesOfAll(list)
    case Holds(call) => TablesOf(call)
  }

  function TablesOfLogic(l: Logic): set<Relation> {
    match l
    case Test(c) => TablesOfCond(c)
    case BothOf(a, b) => TablesOfLogic(a) + TablesOfLogic(b)
    case EitherOf(a, b) => TablesOfLogic(a) + TablesOfLogic(b)
  }

  // ---- Leaves ----

  lemma TablesOfTwo(x: Sql.Expr, y: Sql.Expr)
    ensures TablesOfAll([x, y]) == TablesOf(x) + TablesOf(y)
  {
    assert [x, y][1..] == [y] && [y][1..] == [];
    assert TablesOfAll([y]) == TablesOf(y);
  }

  lemma TablesOfThree(x: Sql.Expr, y: Sql.Expr, z: Sql.Expr)
    ensures TablesOfAll([x, y, z]) == TablesOf(x) + TablesOf(y) + TablesOf(z)
  {
    assert [x, y, z][1..] == [y, z];
    TablesOfTwo(y, z);
  }

  lemma TablesOfFour(x: Sql.Expr, y: Sql.Expr, z: Sql.Expr, w: Sql.Expr)
    ensures TablesOfAll([x, y, z, w]) == TablesOf(x) + TablesOf(y) + TablesOf(z) + TablesOf(w)
  {
    assert [x, y, z, w][1..] == [y, z, w];
    TablesOfThree(y, z, w);
  }

  lemma ParamTables(key: string)
    ensures TablesOf(Param(key)) == {}
  {
    assert TableOfName(["sp", "params"]) == {};
  }

  lemma ColumnTables()
    ensures TableOfName(["layer2", "icrs", "ra"]) == {ICRS} && TableOfName(["layer2", "icrs", "dec"]) == {ICRS}
    ensures TableOfName(["layer2", "designation", "design"]) == {DESIGNATION}
    ensures TableOfName(["designation", "design"]) == {DESIGNATION}
    ensures TableOfName(["layer2", "designations", "design"]) == {DESIGNATIONS}
    ensures TableOfName(["pgc"]) == {} && TableOfName(["false"]) == {} && TableOfName(["sp", "search_type"]) == {}
    ensures TableOfName(["1"]) == {}
  {
    assert "designation"[0] == 'd' && "sp"[0] == 's';
    assert "layer2." + "icrs" == "layer2.icrs";
    assert "layer2." + "designation" == "layer2.designation" && "layer2." + "designations" == "layer2.designations";
  }

  lemma PointTables(x: Sql.Expr, y: Sql.Expr)
    ensures TablesOf(PointAt(x, y)) == TablesOf(x) + TablesOf(y)
  {
    TablesOfTwo(x, y);
    assert TablesOf(Sql.Apply("ST_MakePoint", [x, y])) == TablesOfAll([x, y]);
  }

  lemma ObjectPointTables()
    ensures TablesOf(ObjectPoint()) == {ICRS}
  {
    ColumnTables();
    PointTables(Sql.Name(["layer2", "icrs", "ra"]), Sql.Name(["layer2", "icrs", "dec"]));
    hide TableOfName, PointAt;
  }

  lemma SearchPointTables()
    ensures TablesOf(SearchPoint()) == {}
  {
    ParamTables("ra");
    ParamTables("dec");
    PointTables(Sql.Cast(Param("ra"), "float"), Sql.Cast(Param("dec"), "float"));
    hide PointAt, Param;
  }

  lemma {:induction false} PgcTables(pgcs: seq<Pgc>)
    ensures TablesOfAll(PgcExprs(pgcs)) == {}
  {
    if pgcs != [] {
      PgcTables(pgcs[1..]);
      assert PgcExprs(pgcs)[1..] == PgcExprs(pgcs[1..]);
    }
  }

  /** The condition that is the text of a filter names the tables that the filter is said to mention. */
  lemma LeafTables(f: Filter)
    requires IsLeaf(f)
    ensures TablesOfCond(LeafCond(f)) == Mentioned(f)
  {
    ColumnTables();
    hide TableOfName, TablesOfAll, Param, SearchPoint, ObjectPoint;
    match f
    case PgcOneOf(pgcs) => PgcTables(pgcs);
    case DesignationEquals(_) =>
    case DesignationClose(distance) =>
      var name := Sql.Name(["layer2", "designation", "design"]);
      ParamTables("design");
      TablesOfThree(name, Param("design"), Sql.Fixed(OfInt(distance)));
    case DesignationLike =>
      ParamTables("design");
      TablesOfThree(Sql.Text("%"), Param("design"), Sql.Text("%"));
    case InRadius(radius) =>
      SearchPointTables();
      ObjectPointTables();
      TablesOfFour(SearchPoint(), ObjectPoint(), Sql.Fixed(OfReal(radius)), Sql.Name(["false"]));
  }

  // ---- The WHERE clause ----

  function MentionedIn(tree: Rendering.Tree): set<Relation> {
    match tree
    case Atom(t) => if t.Leaf? then Mentioned(t.filter) else {}
    case AndNode(a, b) => MentionedIn(a) + MentionedIn(b)
    case OrNode(a, b) => MentionedIn(a) + MentionedIn(b)
  }

  lemma {:induction false} LogicTables(tree: Rendering.Tree)
    requires Atoms(tree)
    ensures TablesOfLogic(LogicOf(tree)) == MentionedIn(tree)
  {
    match tree
    case Atom(t) => AtomTables(t);
    case AndNode(a, b) =>
      LogicTables(a);
      LogicTables(b);
    case OrNode(a, b) =>
      LogicTables(a);
      LogicTables(b);
  }

  lemma AtomTables(t: Rendering.Token)
    requires Rendering.IsOperand(t) && Fit(t)
    ensures TablesOfCond(CondOf(t)) == if t.Leaf? then Mentioned(t.filter) else {}
  {
    hide TableOfName;
    ColumnTables();
    if t.Leaf? {
      hide TablesOfCond, LeafCond, Mentioned;
      LeafTables(t.filter);
    }
  }

  lemma {:induction false} TreeTables(f: Filter)
    ensures MentionedIn(Rendering.TreeOf(f)) == Mentioned(f)
    decreases f, 0
  {
    match f
    case And(fs) =>
      if fs != [] {
        TreeTables(fs[0]);
        AndFoldTables(Rendering.TreeOf(fs[0]), fs[1..]);
      }
    case Or(fs) =>
      if fs != [] {
        TreeTables(fs[0]);
        OrFoldTables(Rendering.TreeOf(fs[0]), fs[1..]);
      }
    case _ =>
  }

  lemma {:induction false} AndFoldTables(left: Rendering.Tree, fs: seq<Filter>)
    ensures MentionedIn(Rendering.AndFold(left, fs)) == MentionedIn(left) + MentionedByAny(fs)
    decreases fs, 1
  {
    if fs != [] {
      TreeTables(fs[0]);
      AndFoldTables(Rendering.AndNode(left, Rendering.TreeOf(fs[0])), fs[1..]);
    }
  }

  lemma {:induction false} OrFoldTables(left: Rendering.Tree, fs: seq<Filter>)
    ensures MentionedIn(Rendering.OrFold(left, fs)) == MentionedIn(left) + MentionedByAny(fs)
    decreases fs, 1
  {
    if fs != [] {
      TreeTables(fs[0]);
      OrFoldTables(Rendering.OrNode(left, Rendering.TreeOf(fs[0])), fs[1..]);
    }
  }

  lemma ConditionTables(s: Search)
    ensures MentionedIn(Rendering.ConditionTree(s)) == Mentioned(s.filter)
  {
    var test := Rendering.Atom(Rendering.SearchTypeIs(s.name));
    match s.filter
    case And(fs) =>
      if fs != [] {
        TreeTables(fs[0]);
        AndFoldTables(Rendering.AndNode(test, Rendering.TreeOf(fs[0])), fs[1..]);
      }
    case Or(fs) =>
      if fs != [] {
        TreeTables(fs[0]);
        OrFoldTables(Rendering.AndNode(test, Rendering.TreeOf(fs[0])), fs[1..]);
      }
    case _ =>
  }

  lemma {:induction false} MoreTables(left: Rendering.Tree, types: seq<Search>)
    ensures MentionedIn(Rendering.MoreTrees(left, types)) == MentionedIn(left) + MentionedByAny(FiltersOf(types))
    decreases |types|
  {
    if types != [] {
      ConditionTables(types[0]);
      MoreTables(Rendering.OrNode(left, Rendering.ConditionTree(types[0])), types[1..]);
    }
  }

  lemma WhereTables(types: seq<Search>)
    requires types != []
    ensures MentionedIn(Rendering.WhereTree(types)) == MentionedByAny(FiltersOf(types))
  {
    ConditionTables(types[0]);
    MoreTables(Rendering.ConditionTree(types[0]), types[1..]);
  }

  // ---- The ordering ----

  lemma OrderTables(ra: real, dec: real)
    ensures TablesOfAll(OrderExprs(ra, dec)) == {ICRS}
  {
    ColumnTables();
    ObjectPointTables();
    PointTables(Sql.Fixed(OfReal(ra)), Sql.Fixed(OfReal(dec)));
    hide TableOfName, PointAt, ObjectPoint;
    TablesOfThree(CentrePoint(ra, dec), ObjectPoint(), Sql.Name(["false"]));
    TablesOfTwo(DistanceExpr(ra, dec), Sql.Name(["pgc"]));
  }

  // ---- The main result ----

  /**
   * The database accepts a query exactly if its WHERE clause can be read and every table that a column in it, or in its
   * ordering, is of stands in its FROM clause.
   */
  lemma AcceptedIff(types: seq<Search>, ordering: Option<BatchQuery.Ordering>, names: seq<Relation>)
    requires types != [] && Named(types)
    ensures var where := ReadWhere(FilterText.Pieces(Rendering.WhereText(types)));
      var order := Sql.ReadOrder(BatchQuery.OrderPieces(ordering));
      var joined := Elements(QueryPlan.FromOrder(QueryDriving(types), names));
      Accepted(types, ordering.Some?, names) <==>
        && where.Some? && TablesOfLogic(where.value) <= joined
        && (ordering.Some? ==> order.Some? && TablesOfAll(order.value) <= joined)
  {
    hide Rendering.WhereText, Rendering.WhereTree, ReadWhere, Sql.ReadOrder, TablesOfLogic, TablesOfAll, LogicOf, Atoms,
      QueryPlan.FromOrder, BatchQuery.OrderPieces, OrderExprs, FilterText.Pieces;
    WhereIsRead(types);
    if Rendering.AllWritable(types) {
      LogicTables(Rendering.WhereTree(types));
      WhereTables(types);
    }
    if ordering.Some? {
      OrderTables(ordering.value.ra, ordering.value.dec);
      OrderIsRead(ordering.value.ra, ordering.value.dec);
    }
  }

  lemma OrderIsRead(ra: real, dec: real)
    ensures Sql.ReadOrder(BatchQuery.OrderPieces(Some(BatchQuery.DistanceTo(ra, dec)))) == Some(OrderExprs(ra, dec))
  {
    assert OrderExprs(ra, dec) != [];
    hide Sql.ReadOrder, BatchQuery.OrderPieces, OrderExprs;
    OrderWritten(ra, dec);
    OrderFine(ra, dec);
    Sql.OrderReads(OrderExprs(ra, dec));
  }
}

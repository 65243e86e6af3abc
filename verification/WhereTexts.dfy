/** The WHERE clause read as the database reads it: from its characters to the rows it selects. */
module WhereTexts {
  import opened Collections
  import opened Filters
  import opened Binding
  import Rendering
  import FilterText
  import Sql
  import opened SqlMeaning
  import opened LeafTexts
  import opened QueryTexts

  // ---- The grammar ----

  /** Conditions joined by AND and OR. */
  datatype Logic = Test(cond: Sql.Cond) | BothOf(left: Logic, right: Logic) | EitherOf(left: Logic, right: Logic)

  const AND: Sql.Token := Sql.Word("AND")
  const OR: Sql.Token := Sql.Word("OR")

  /** OR of ANDs of conditions and of what stands in parentheses. */
  function ParseOr(ts: seq<Sql.Token>): (r: Sql.Parsed<Logic>)
    ensures r.Parsed? ==> |r.rest| < |ts|
    decreases |ts|, 2
  {
    var first := ParseAnd(ts);
    if first.Failed? then Sql.Failed else OrTail(first.value, first.rest)
  }

  function OrTail(left: Logic, ts: seq<Sql.Token>): (r: Sql.Parsed<Logic>)
    ensures r.Parsed? ==> |r.rest| <= |ts|
    decreases |ts|, 3
  {
    if ts == [] || ts[0] != OR then Sql.Parsed(left, ts) else
      var next := ParseAnd(ts[1..]);
      if next.Failed? then Sql.Failed else OrTail(EitherOf(left, next.value), next.rest)
  }

  function ParseAnd(ts: seq<Sql.Token>): (r: Sql.Parsed<Logic>)
    ensures r.Parsed? ==> |r.rest| < |ts|
    decreases |ts|, 1
  {
    var first := ParseTest(ts);
    if first.Failed? then Sql.Failed else AndTail(first.value, first.rest)
  }

  function AndTail(left: Logic, ts: seq<Sql.Token>): (r: Sql.Parsed<Logic>)
    ensures r.Parsed? ==> |r.rest| <= |ts|
    decreases |ts|, 3
  {
    if ts == [] || ts[0] != AND then Sql.Parsed(left, ts) else
      var next := ParseTest(ts[1..]);
      if next.Failed? then Sql.Failed else AndTail(BothOf(left, next.value), next.rest)
  }

  function ParseTest(ts: seq<Sql.Token>): (r: Sql.Parsed<Logic>)
    ensures r.Parsed? ==> |r.rest| < |ts|
    decreases |ts|, 0
  {
    if ts == [] || ts[0] == AND || ts[0] == OR then Sql.Failed
    else if ts[0].Open? then Sql.Enclosed(ParseOr(ts[1..]))
    else
      var c := Sql.ParseCond(ts);
      if c.Failed? then Sql.Failed else Sql.Parsed(Test(c.value), c.rest)
  }

  /** A whole WHERE clause, from its characters and values. */
  function ReadWhere(ps: seq<Piece>): Option<Logic> {
    var ts := Sql.Lex(ps);
    if ts.None? then Option.None else
      var l := ParseOr(ts.value);
      if l.Parsed? && l.rest == [] then Some(l.value) else Option.None
  }

  function EvalLogic(db: Predicates, l: Logic, row: Joined): Option<Truth> {
    match l
    case Test(c) => EvalCond(db, c, row)
    case BothOf(a, b) =>
      var x, y := EvalLogic(db, a, row), EvalLogic(db, b, row);
      if x.None? || y.None? then Option.None else Some(Both(x.value, y.value))
    case EitherOf(a, b) =>
      var x, y := EvalLogic(db, a, row), EvalLogic(db, b, row);
      if x.None? || y.None? then Option.None else Some(Either(x.value, y.value))
  }

  // ---- The words of the clause in tokens ----

  predicate IsTest(t: Rendering.Token) {
    t.Leaf? || t.OneIsOne? || t.SearchTypeIs?
  }

  predicate Fit(t: Rendering.Token) {
    (t.Leaf? ==> IsLeaf(t.filter)) && (t.SearchTypeIs? ==> Sql.Lacks(t.name, '\''))
  }

  function CondOf(t: Rendering.Token): Sql.Cond {
    match t
    case Leaf(f) => if IsLeaf(f) then LeafCond(f) else OneIsOneCond()
    case SearchTypeIs(name) => SearchTypeCond(name)
    case _ => OneIsOneCond()
  }

  function SqlOf(t: Rendering.Token): seq<Sql.Token> {
    match t
    case Open => [Sql.Open]
    case Close => [Sql.Close]
    case AndWord => [AND]
    case OrWord => [OR]
    case _ => Sql.PrintCond(CondOf(t))
  }

  function SqlTokens(ts: seq<Rendering.Token>): seq<Sql.Token> {
    if ts == [] then [] else SqlOf(ts[0]) + SqlTokens(ts[1..])
  }

  function LogicOf(tree: Rendering.Tree): Logic {
    match tree
    case Atom(t) => Test(CondOf(t))
    case AndNode(a, b) => BothOf(LogicOf(a), LogicOf(b))
    case OrNode(a, b) => EitherOf(LogicOf(a), LogicOf(b))
  }

  /** A condition or a closing parenthesis is followed by neither a condition nor an opening one. */
  predicate Follows(a: Rendering.Token, b: Rendering.Token) {
    IsTest(a) || a.Close? ==> b.Close? || b.AndWord? || b.OrWord?
  }

  predicate Proper(ts: seq<Rendering.Token>) {
    && (forall t | t in ts :: Fit(t))
    && forall i | 0 <= i < |ts| - 1 :: Follows(ts[i], ts[i + 1])
  }

  lemma ProperAppend(a: seq<Rendering.Token>, b: seq<Rendering.Token>)
    requires Proper(a) && Proper(b) && (a != [] && b != [] ==> Follows(a[|a| - 1], b[0]))
    ensures Proper(a + b)
  {
    hide Follows, Fit;
    forall i | 0 <= i < |a + b| - 1 ensures Follows((a + b)[i], (a + b)[i + 1]) {
      if i >= |a| {
        assert Follows(b[i - |a|], b[i - |a| + 1]);
      }
    }
  }

  lemma ProperRest(ts: seq<Rendering.Token>, k: nat)
    requires Proper(ts) && k <= |ts|
    ensures Proper(ts[k..])
  {
    hide Follows, Fit;
    forall i | 0 <= i < |ts[k..]| - 1 ensures Follows(ts[k..][i], ts[k..][i + 1]) {
      assert Follows(ts[k + i], ts[k + i + 1]);
    }
  }

  // ---- The clause is proper ----

  predicate Named(types: seq<Search>) {
    forall s | s in types :: Sql.Lacks(s.name, '\'')
  }

  /** Starts like a condition, ends like one, and is proper. */
  predicate Operand(ts: seq<Rendering.Token>) {
    && ts != [] && Proper(ts)
    && (IsTest(ts[0]) || ts[0].Open?) && (IsTest(ts[|ts| - 1]) || ts[|ts| - 1].Close?)
  }

  lemma OneToken(t: Rendering.Token)
    requires IsTest(t) && Fit(t)
    ensures Operand([t])
  {}

  lemma Bracketed(ts: seq<Rendering.Token>)
    requires Operand(ts)
    ensures Operand([Rendering.Open] + ts + [Rendering.Close])
  {
    assert Proper([Rendering.Open]) && Proper([Rendering.Close]);
    hide Proper;
    ProperAppend([Rendering.Open], ts);
    assert ([Rendering.Open] + ts)[|ts|] == ts[|ts| - 1];
    ProperAppend([Rendering.Open] + ts, [Rendering.Close]);
  }

  /** An operand, the word, and something that goes on with an operand. */
  lemma Linked(a: seq<Rendering.Token>, word: Rendering.Token, b: seq<Rendering.Token>)
    requires Operand(a) && Operand(b) && (word.AndWord? || word.OrWord?)
    ensures Operand(a + [word] + b)
  {
    assert Proper([word]);
    hide Proper;
    ProperAppend(a, [word]);
    assert (a + [word])[|a|] == word;
    ProperAppend(a + [word], b);
    assert (a + [word] + b)[|a + [word] + b| - 1] == b[|b| - 1];
  }

  lemma {:induction false} RenderIsOperand(f: Filter)
    ensures Operand(Rendering.Render(f))
    decreases f, 1
  {
    match f
    case And(fs) => JoinIsOperand(Rendering.AndWord, fs);
    case Or(fs) => JoinIsOperand(Rendering.OrWord, fs);
    case _ => OneToken(Rendering.Leaf(f));
  }

  lemma {:induction false} JoinIsOperand(word: Rendering.Token, fs: seq<Filter>)
    requires word.AndWord? || word.OrWord?
    ensures Operand(Rendering.JoinedBy(word, fs))
    decreases fs, 2
  {
    hide Operand;
    if fs == [] {
      OneToken(Rendering.OneIsOne);
    } else {
      assert fs[0] in fs;
      RenderIsOperand(fs[0]);
      Bracketed(Rendering.Render(fs[0]));
      RestIsOperand(word, Rendering.Parenthesised(fs[0]), fs[1..]);
    }
  }

  lemma {:induction false} RestIsOperand(word: Rendering.Token, first: seq<Rendering.Token>, fs: seq<Filter>)
    requires (word.AndWord? || word.OrWord?) && Operand(first)
    ensures Operand(first + Rendering.Rest(word, fs))
    decreases fs, 0
  {
    hide Operand;
    if fs == [] {
      assert first + [] == first;
    } else {
      assert fs[0] in fs;
      RenderIsOperand(fs[0]);
      Bracketed(Rendering.Render(fs[0]));
      Linked(first, word, Rendering.Parenthesised(fs[0]));
      RestIsOperand(word, first + [word] + Rendering.Parenthesised(fs[0]), fs[1..]);
      assert first + Rendering.Rest(word, fs) ==
        (first + [word] + Rendering.Parenthesised(fs[0])) + Rendering.Rest(word, fs[1..]);
    }
  }

  lemma ConditionIsOperand(s: Search)
    requires Sql.Lacks(s.name, '\'')
    ensures Operand(Rendering.Condition(s))
  {
    var test := Rendering.SearchTypeIs(s.name);
    OneToken(test);
    RenderIsOperand(s.filter);
    hide Operand;
    Linked([test], Rendering.AndWord, Rendering.Render(s.filter));
    Bracketed([test] + [Rendering.AndWord] + Rendering.Render(s.filter));
    assert Rendering.Condition(s) ==
      [Rendering.Open] + ([test] + [Rendering.AndWord] + Rendering.Render(s.filter)) + [Rendering.Close];
  }

  lemma {:induction false} MoreIsOperand(first: seq<Rendering.Token>, types: seq<Search>)
    requires Operand(first) && Named(types)
    ensures Operand(first + Rendering.MoreConditions(types))
    decreases |types|
  {
    hide Operand;
    if types == [] {
      assert first + [] == first;
    } else {
      assert types[0] in types && forall s | s in types[1..] :: s in types;
      ConditionIsOperand(types[0]);
      Linked(first, Rendering.OrWord, Rendering.Condition(types[0]));
      MoreIsOperand(first + [Rendering.OrWord] + Rendering.Condition(types[0]), types[1..]);
      assert first + Rendering.MoreConditions(types) ==
        (first + [Rendering.OrWord] + Rendering.Condition(types[0])) + Rendering.MoreConditions(types[1..]);
    }
  }

  lemma WhereIsProper(types: seq<Search>)
    requires types != [] && Named(types)
    ensures Proper(Rendering.WhereText(types))
  {
    assert types[0] in types && forall s | s in types[1..] :: s in types;
    ConditionIsOperand(types[0]);
    MoreIsOperand(Rendering.Condition(types[0]), types[1..]);
  }

  // ---- From characters to tokens ----

  function ItemsOf(t: Rendering.Token): seq<Sql.Item> {
    if t.OneIsOne? then ONE_IS_ONE else Sql.Layout(SqlOf(t))
  }

  function AllItems(ts: seq<Rendering.Token>): seq<Sql.Item> {
    if ts == [] then [] else ItemsOf(ts[0]) + AllItems(ts[1..])
  }

  /** The first item is no word, or the last one is none. */
  predicate Begins(items: seq<Sql.Item>) {
    items != [] && (items[0].Gap? || !items[0].token.Word?)
  }

  predicate Finishes(items: seq<Sql.Item>) {
    items != [] && (items[|items| - 1].Gap? || !items[|items| - 1].token.Word?)
  }

  lemma WordsWritten()
    ensures Sql.Written([Sql.Open]) == Letters("(") && Sql.Written([Sql.Close]) == Letters(")")
    ensures Sql.Written([AND]) == Letters(" AND ") && Sql.Written([OR]) == Letters(" OR ")
  {
    Sql.SignsWritten();
    hide Letters, Sql.Written;
    BothGaps("AND");
    BothGaps("OR");
    assert " " + ("AND" + " ") == " AND " && " " + ("OR" + " ") == " OR ";
  }

  lemma WordsLegible()
    ensures Sql.Legible([Sql.Open]) && Sql.Legible([Sql.Close]) && Sql.Legible([AND]) && Sql.Legible([OR])
  {
    assert Sql.IsWord("AND") && Sql.IsWord("OR");
  }

  lemma TestFacts(t: Rendering.Token)
    requires IsTest(t) && Fit(t)
    ensures Sql.Spell(ItemsOf(t)) == FilterText.TokenPieces(t) && Sql.TokensOf(ItemsOf(t)) == SqlOf(t)
    ensures Sql.Readable(ItemsOf(t)) && ItemsOf(t) != []
  {
    hide Sql.Spell, Sql.TokensOf, Sql.Readable, LeafPieces, Letters, LeafCond, SearchTypeCond, OneIsOneCond, Sql.PrintCond;
    hide Sql.Layout;
    if t.OneIsOne? {
      OneIsOneItems();
    } else {
      if t.Leaf? {
        LeafWritten(t.filter);
      } else {
        SearchTypeWritten(t.name);
      }
      FirstToken(t);
      TokensKept(CondOf(t));
    }
  }

  lemma TokensKept(c: Sql.Cond)
    requires Sql.CondWordy(c) && Sql.PrintCond(c) != []
    ensures Sql.TokensOf(Sql.Layout(Sql.PrintCond(c))) == Sql.PrintCond(c)
    ensures Sql.Readable(Sql.Layout(Sql.PrintCond(c))) && Sql.Layout(Sql.PrintCond(c)) != []
  {
    hide Sql.Readable, Sql.TokensOf, Sql.Layout, Sql.Legible;
    Sql.CondLegible(c);
    Sql.LayoutReadable(Sql.PrintCond(c));
    Sql.LayoutTokens(Sql.PrintCond(c));
    Sql.FirstOfLayout(Sql.PrintCond(c));
  }

  /** A condition begins with a name, and no name of these is AND or OR. */
  lemma FirstToken(t: Rendering.Token)
    requires IsTest(t) && Fit(t)
    ensures SqlOf(t) != [] && SqlOf(t)[0].Word? && SqlOf(t)[0] != AND && SqlOf(t)[0] != OR
  {
    match t
    case Leaf(f) =>
      match f {
        case PgcOneOf(_) => FirstOfName(["pgc"]);
        case DesignationEquals(_) => FirstOfName(["designation", "design"]);
        case DesignationClose(distance) =>
          FirstOfCall("levenshtein_less_equal",
            [Sql.Name(["layer2", "designation", "design"]), Param("design"), Sql.Fixed(OfInt(distance))]);
        case DesignationLike => FirstOfName(["layer2", "designations", "design"]);
        case InRadius(radius) =>
          FirstOfCall("ST_DWithin", [SearchPoint(), ObjectPoint(), Sql.Fixed(OfReal(radius)), Sql.Name(["false"])]);
      }
    case SearchTypeIs(_) => FirstOfName(["sp", "search_type"]);
    case OneIsOne => FirstOfName(["1"]);
    case _ =>
  }

  lemma FirstOfCall(name: string, args: seq<Sql.Expr>)
    requires name != "" && name[0] != 'A' && name[0] != 'O'
    ensures Sql.PrintExpr(Sql.Apply(name, args)) != [] && Sql.PrintExpr(Sql.Apply(name, args))[0] == Sql.Word(name)
    ensures Sql.Word(name) != AND && Sql.Word(name) != OR
  {
    Sql.PrintsAlike(Sql.Apply(name, args));
    assert "AND"[0] == 'A' && "OR"[0] == 'O';
  }

  lemma FirstOfName(path: seq<string>)
    requires path != [] && path[0] != "" && path[0][0] != 'A' && path[0][0] != 'O'
    ensures Sql.PrintExpr(Sql.Name(path)) != [] && Sql.PrintExpr(Sql.Name(path))[0] == Sql.Word(path[0])
    ensures Sql.Word(path[0]) != AND && Sql.Word(path[0]) != OR
  {
    Sql.PrintsAlike(Sql.Name(path));
    assert "AND"[0] == 'A' && "OR"[0] == 'O';
  }

  lemma ItemFacts(t: Rendering.Token)
    requires Fit(t)
    ensures Sql.Spell(ItemsOf(t)) == FilterText.TokenPieces(t) && Sql.TokensOf(ItemsOf(t)) == SqlOf(t)
    ensures Sql.Readable(ItemsOf(t)) && ItemsOf(t) != []
    ensures t.Close? || t.AndWord? || t.OrWord? ==> Begins(ItemsOf(t))
    ensures t.Open? || t.AndWord? || t.OrWord? ==> Finishes(ItemsOf(t))
  {
    hide Sql.Spell, Sql.TokensOf, Sql.Readable;
    if IsTest(t) {
      hide ItemsOf, SqlOf;
      TestFacts(t);
    } else {
      WordsWritten();
      WordsLegible();
      hide Sql.Legible;
      Sql.LayoutReadable(SqlOf(t));
      Sql.LayoutTokens(SqlOf(t));
      Sql.FirstOfLayout(SqlOf(t));
      LastOfLayout(SqlOf(t)[0]);
      hide Letters;
    }
  }

  lemma LastOfLayout(t: Sql.Token)
    ensures Sql.Layout([t]) != []
    ensures var items := Sql.Layout([t]); items[|items| - 1] == if Sql.GapAfter(t) then Sql.Gap else Sql.Tok(t)
  {
    assert [t][1..] == [];
    assert Sql.Layout([t]) == Sql.Spaced(t) + [];
  }

  lemma {:induction false} ReadableAppend(a: seq<Sql.Item>, b: seq<Sql.Item>)
    requires Sql.Readable(a) && Sql.Readable(b) && (a != [] && b != [] ==> Finishes(a) || Begins(b))
    ensures Sql.Readable(a + b)
  {
    hide Sql.Spellable;
    if a == [] {
      assert a + b == b;
    } else {
      assert (a + b)[1..] == a[1..] + b;
      if |a| > 1 {
        assert a[1..][|a| - 2] == a[|a| - 1] && (a + b)[1] == a[1];
      } else if b != [] {
        assert (a + b)[1] == b[0];
      }
      ReadableAppend(a[1..], b);
    }
  }

  lemma {:induction false} TextReadable(ts: seq<Rendering.Token>)
    requires Proper(ts)
    ensures Sql.Readable(AllItems(ts)) && (ts != [] && Begins(ItemsOf(ts[0])) ==> Begins(AllItems(ts)))
    ensures Sql.Spell(AllItems(ts)) == FilterText.Pieces(ts)
    ensures Sql.TokensOf(AllItems(ts)) == SqlTokens(ts)
  {
    hide Sql.Spell, Sql.TokensOf, Sql.Readable, ItemsOf, SqlOf, Fit, FilterText.TokenPieces;
    if ts == [] {
      Nothing();
    } else {
      assert ts[0] in ts;
      ItemFacts(ts[0]);
      ProperRest(ts, 1);
      TextReadable(ts[1..]);
      if |ts| > 1 {
        assert Follows(ts[0], ts[1]) && ts[1] in ts && ts[1..][0] == ts[1];
        ItemFacts(ts[1]);
      }
      hide Proper;
      ReadableAppend(ItemsOf(ts[0]), AllItems(ts[1..]));
      Sql.TokensAppend(ItemsOf(ts[0]), AllItems(ts[1..]));
    }
  }

  lemma Nothing()
    ensures Sql.Readable([]) && Sql.Spell([]) == [] && Sql.TokensOf([]) == []
  {}

  /** The characters of the clause are read as its words. */
  lemma TextLexed(ts: seq<Rendering.Token>)
    requires Proper(ts)
    ensures Sql.Lex(FilterText.Pieces(ts)) == Some(SqlTokens(ts))
  {
    hide Sql.Lex, Sql.Readable, Sql.Spell, Sql.TokensOf;
    TextReadable(ts);
    Sql.LexSpelled(AllItems(ts));
  }

  // ---- From tokens to the tree ----

  /** What a parse of the words says of a parse of the tokens. */
  function Mapped(r: Rendering.Parsed): Sql.Parsed<Logic> {
    if r.Failed? then Sql.Failed else Sql.Parsed(LogicOf(r.tree), SqlTokens(r.rest))
  }

  /** Every atom is a condition that can be written. */
  predicate Atoms(tree: Rendering.Tree) {
    match tree
    case Atom(t) => Rendering.IsOperand(t) && Fit(t)
    case AndNode(a, b) => Atoms(a) && Atoms(b)
    case OrNode(a, b) => Atoms(a) && Atoms(b)
  }

  /** What was parsed has such atoms, and the rest is an end of the text. */
  predicate Sound(ts: seq<Rendering.Token>, r: Rendering.Parsed) {
    r.Parsed? ==> Atoms(r.tree) && |r.rest| <= |ts| && r.rest == ts[|ts| - |r.rest|..]
  }

  lemma SoundLater(ts: seq<Rendering.Token>, middle: seq<Rendering.Token>, r: Rendering.Parsed)
    requires |middle| <= |ts| && middle == ts[|ts| - |middle|..] && Sound(middle, r)
    ensures Sound(ts, r)
  {}

  lemma NextToken(ts: seq<Rendering.Token>)
    requires Proper(ts)
    ensures ts == [] ==> SqlTokens(ts) == []
    ensures ts != [] ==>
      && SqlTokens(ts) != [] && SqlTokens(ts) == SqlOf(ts[0]) + SqlTokens(ts[1..])
      && (SqlTokens(ts)[0] == AND <==> ts[0].AndWord?) && (SqlTokens(ts)[0] == OR <==> ts[0].OrWord?)
      && (SqlTokens(ts)[0] == Sql.Open <==> ts[0].Open?) && (SqlTokens(ts)[0] == Sql.Close <==> ts[0].Close?)
      && (!IsTest(ts[0]) ==> SqlTokens(ts)[1..] == SqlTokens(ts[1..]))
  {
    if ts != [] {
      assert ts[0] in ts;
      assert "AND"[0] == 'A' && "OR"[0] == 'O';
      if IsTest(ts[0]) {
        FirstToken(ts[0]);
        hide SqlOf;
      }
    }
  }

  lemma TestParses(t: Rendering.Token, rest: seq<Sql.Token>)
    requires IsTest(t) && Fit(t) && Sql.EndsCond(rest)
    ensures Sql.ParseCond(SqlOf(t) + rest) ==
      if Rendering.IsOperand(t) then Sql.Parsed(CondOf(t), rest) else Sql.Failed
  {
    hide Sql.ParseCond, Sql.PrintCond, Sql.EndsCond, LeafPieces, Sql.Written;
    if t == Rendering.Leaf(PgcOneOf([])) {
      Sql.NoListFails(Sql.Name(["pgc"]), rest);
    } else {
      match t {
        case Leaf(f) => LeafWritten(f);
        case SearchTypeIs(name) => SearchTypeWritten(name);
        case _ =>
      }
      Sql.CondParses(CondOf(t), rest);
    }
  }

  lemma {:induction false} TestSim(ts: seq<Rendering.Token>)
    requires Proper(ts)
    ensures ParseTest(SqlTokens(ts)) == Mapped(Rendering.ParsePrimary(ts)) && Sound(ts, Rendering.ParsePrimary(ts))
    decreases |ts|, 0
  {
    hide Sql.ParseCond, SqlOf, CondOf, Proper, ParseOr, Rendering.ParseOr;
    NextToken(ts);
    if ts != [] {
      ProperRest(ts, 1);
      if ts[0].Open? {
        OrSim(ts[1..]);
        var inner := Rendering.ParseOr(ts[1..]);
        if inner.Parsed? {
          ProperRest(ts[1..], |ts[1..]| - |inner.rest|);
          NextToken(inner.rest);
        }
      } else if IsTest(ts[0]) {
        AtomSim(ts);
      } else if ts[0].Close? {
        NoTest(SqlTokens(ts));
      }
    }
  }

  lemma NoTest(ts: seq<Sql.Token>)
    requires ts != [] && ts[0].Close?
    ensures Sql.ParseCond(ts).Failed?
  {
    assert Sql.ParsePrimary(ts).Failed?;
    assert Sql.ParseCast(ts).Failed?;
    assert Sql.ParseExpr(ts).Failed?;
  }

  lemma AtomSim(ts: seq<Rendering.Token>)
    requires Proper(ts) && ts != [] && IsTest(ts[0])
    ensures ParseTest(SqlTokens(ts)) == Mapped(Rendering.ParsePrimary(ts)) && Sound(ts, Rendering.ParsePrimary(ts))
  {
    NextToken(ts);
    TestEnds(ts);
    TestParses(ts[0], SqlTokens(ts[1..]));
    hide Sql.ParseCond, SqlOf, CondOf, Proper, ParseOr, Rendering.ParseOr, SqlTokens, Fit;
    assert ParseTest(SqlTokens(ts)) ==
      if Rendering.IsOperand(ts[0]) then Sql.Parsed(Test(CondOf(ts[0])), SqlTokens(ts[1..])) else Sql.Failed;
  }

  lemma TestEnds(ts: seq<Rendering.Token>)
    requires Proper(ts) && ts != [] && IsTest(ts[0])
    ensures Fit(ts[0]) && Sql.EndsCond(SqlTokens(ts[1..]))
  {
    hide SqlOf, SqlTokens;
    assert ts[0] in ts;
    ProperRest(ts, 1);
    NextToken(ts[1..]);
    if |ts| > 1 {
      assert Follows(ts[0], ts[1]) && ts[1..][0] == ts[1];
    }
  }

  lemma {:induction false} AndSim(ts: seq<Rendering.Token>)
    requires Proper(ts)
    ensures ParseAnd(SqlTokens(ts)) == Mapped(Rendering.ParseAnd(ts)) && Sound(ts, Rendering.ParseAnd(ts))
    decreases |ts|, 1
  {
    hide Proper, SqlTokens, Atoms, Rendering.ParsePrimary, ParseTest;
    TestSim(ts);
    var first := Rendering.ParsePrimary(ts);
    if first.Parsed? {
      ProperRest(ts, |ts| - |first.rest|);
      AndTailSim(first.tree, first.rest);
      SoundLater(ts, first.rest, Rendering.AndTail(first.tree, first.rest));
    }
  }

  lemma {:induction false} AndTailSim(left: Rendering.Tree, ts: seq<Rendering.Token>)
    requires Proper(ts) && Atoms(left)
    ensures AndTail(LogicOf(left), SqlTokens(ts)) == Mapped(Rendering.AndTail(left, ts))
    ensures Sound(ts, Rendering.AndTail(left, ts))
    decreases |ts|, 3
  {
    hide Proper, SqlTokens, Rendering.ParsePrimary, ParseTest, SqlOf;
    NextToken(ts);
    if ts != [] && ts[0] == Rendering.AndWord {
      ProperRest(ts, 1);
      TestSim(ts[1..]);
      var next := Rendering.ParsePrimary(ts[1..]);
      if next.Parsed? {
        var node := Rendering.AndNode(left, next.tree);
        ProperRest(ts[1..], |ts[1..]| - |next.rest|);
        AndTailSim(node, next.rest);
        SoundLater(ts, next.rest, Rendering.AndTail(node, next.rest));
      }
    }
  }

  lemma {:induction false} OrSim(ts: seq<Rendering.Token>)
    requires Proper(ts)
    ensures ParseOr(SqlTokens(ts)) == Mapped(Rendering.ParseOr(ts)) && Sound(ts, Rendering.ParseOr(ts))
    decreases |ts|, 2
  {
    hide Proper, SqlTokens, Atoms, Rendering.ParseAnd, ParseAnd;
    AndSim(ts);
    var first := Rendering.ParseAnd(ts);
    if first.Parsed? {
      ProperRest(ts, |ts| - |first.rest|);
      OrTailSim(first.tree, first.rest);
      SoundLater(ts, first.rest, Rendering.OrTail(first.tree, first.rest));
    }
  }

  lemma {:induction false} OrTailSim(left: Rendering.Tree, ts: seq<Rendering.Token>)
    requires Proper(ts) && Atoms(left)
    ensures OrTail(LogicOf(left), SqlTokens(ts)) == Mapped(Rendering.OrTail(left, ts))
    ensures Sound(ts, Rendering.OrTail(left, ts))
    decreases |ts|, 3
  {
    hide Proper, SqlTokens, Rendering.ParseAnd, ParseAnd, SqlOf;
    NextToken(ts);
    if ts != [] && ts[0] == Rendering.OrWord {
      ProperRest(ts, 1);
      AndSim(ts[1..]);
      var next := Rendering.ParseAnd(ts[1..]);
      if next.Parsed? {
        var node := Rendering.OrNode(left, next.tree);
        ProperRest(ts[1..], |ts[1..]| - |next.rest|);
        OrTailSim(node, next.rest);
        SoundLater(ts, next.rest, Rendering.OrTail(node, next.rest));
      }
    }
  }

  // ---- The main results ----

  /** A condition of the clause means the word it is the text of. */
  lemma TestMeans(db: Predicates, t: Rendering.Token, row: Joined)
    requires Rendering.IsOperand(t) && Fit(t)
    ensures EvalCond(db, CondOf(t), row) == Some(Rendering.EvalTree(db, Rendering.Atom(t), row))
  {
    match t
    case Leaf(f) => LeafCondMeans(db, f, row);
    case SearchTypeIs(name) => SearchTypeMeans(db, name, row);
    case _ => OneIsOneMeans(db, row);
  }

  lemma {:induction false} LogicMeans(db: Predicates, tree: Rendering.Tree, row: Joined)
    requires Atoms(tree)
    ensures EvalLogic(db, LogicOf(tree), row) == Some(Rendering.EvalTree(db, tree, row))
  {
    match tree
    case Atom(t) =>
      hide EvalCond, CondOf;
      TestMeans(db, t, row);
    case AndNode(a, b) =>
      LogicMeans(db, a, row);
      LogicMeans(db, b, row);
    case OrNode(a, b) =>
      LogicMeans(db, a, row);
      LogicMeans(db, b, row);
  }

  /** Reading the characters of a proper text is parsing its words. */
  lemma TextIsRead(ts: seq<Rendering.Token>)
    requires Proper(ts)
    ensures var r := Rendering.ParseOr(ts);
      && ReadWhere(FilterText.Pieces(ts)) == (if r.Parsed? && r.rest == [] then Some(LogicOf(r.tree)) else Option.None)
      && (r.Parsed? ==> Atoms(r.tree))
  {
    hide Sql.Lex, ParseOr, Rendering.ParseOr, SqlTokens, SqlOf, LogicOf, Atoms, Proper, FilterText.Pieces, IsTest;
    TextLexed(ts);
    OrSim(ts);
    var r := Rendering.ParseOr(ts);
    if r.Parsed? {
      ProperRest(ts, |ts| - |r.rest|);
      NextToken(r.rest);
    }
  }

  lemma WhereIsRead(types: seq<Search>)
    requires types != [] && Named(types)
    ensures ReadWhere(FilterText.Pieces(Rendering.WhereText(types))) ==
      if Rendering.AllWritable(types) then Some(LogicOf(Rendering.WhereTree(types))) else Option.None
    ensures Rendering.AllWritable(types) ==> Atoms(Rendering.WhereTree(types))
  {
    hide Rendering.WhereText, Rendering.WhereTree, Proper, Rendering.ParseOr, LogicOf, ReadWhere, FilterText.Pieces, Atoms;
    WhereIsProper(types);
    TextIsRead(Rendering.WhereText(types));
    Rendering.WhereParses(types);
  }

  /**
   * The characters of the WHERE clause with every value in place are read as one expression exactly if no list of objects
   * is empty, and that expression has on each row the value that the searches give it.
   */
  lemma WhereTextMeans(db: Predicates, types: seq<Search>, row: Joined)
    requires types != [] && Named(types)
    ensures var read := ReadWhere(FilterText.Pieces(Rendering.WhereText(types)));
      && (read.Some? <==> Rendering.AllWritable(types))
      && (read.Some? ==> EvalLogic(db, read.value, row) == Some(Rendering.EvalText(db, types, row)))
  {
    hide Rendering.WhereText, Rendering.WhereTree, ReadWhere, Rendering.ParseOr, Rendering.EvalTree, EvalLogic,
      LogicOf, Atoms;
    WhereIsRead(types);
    Rendering.WhereParses(types);
    if Rendering.AllWritable(types) {
      LogicMeans(db, Rendering.WhereTree(types), row);
    }
  }
}

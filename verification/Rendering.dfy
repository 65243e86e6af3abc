/** The WHERE clause as text: what its words parse to when AND binds tighter than OR, against what the filters mean. */
module Rendering {
  import opened Collections
  import opened Schema
  import opened Filters

  /** A word of the WHERE clause; a leaf's text is one word, as it contains no AND or OR outside parentheses. */
  datatype Token =
    | Open
    | Close
    | AndWord
    | OrWord
    | Leaf(filter: Filter)
    | OneIsOne
    | SearchTypeIs(name: string)

  // ---- Rendering ----

  function Render(f: Filter): seq<Token>
    decreases f, 0
  {
    match f
    case And(fs) => JoinedBy(AndWord, fs)
    case Or(fs) => JoinedBy(OrWord, fs)
    case _ => [Leaf(f)]
  }

  function JoinedBy(word: Token, fs: seq<Filter>): seq<Token>
    decreases fs
  {
    if fs == [] then [OneIsOne] else Parenthesised(fs[0]) + Rest(word, fs[1..])
  }

  function Parenthesised(f: Filter): seq<Token>
    decreases f, 1
  {
    [Open] + Render(f) + [Close]
  }

  function Rest(word: Token, fs: seq<Filter>): seq<Token>
    decreases fs
  {
    if fs == [] then [] else [word] + Parenthesised(fs[0]) + Rest(word, fs[1..])
  }

  function Condition(s: Search): seq<Token> {
    [Open, SearchTypeIs(s.name), AndWord] + Render(s.filter) + [Close]
  }

  function MoreConditions(types: seq<Search>): seq<Token> {
    if types == [] then [] else [OrWord] + Condition(types[0]) + MoreConditions(types[1..])
  }

  /** The conditions joined by OR. */
  function WhereText(types: seq<Search>): seq<Token>
    requires types != []
  {
    Condition(types[0]) + MoreConditions(types[1..])
  }

  /** `pgc IN ()` is a syntax error. */
  predicate IsOperand(t: Token) {
    t.OneIsOne? || t.SearchTypeIs? || (t.Leaf? && t.filter != PgcOneOf([]))
  }

  /** No list of objects in the filter is empty. */
  predicate Writable(f: Filter) {
    match f
    case And(fs) => forall g | g in fs :: Writable(g)
    case Or(fs) => forall g | g in fs :: Writable(g)
    case _ => f != PgcOneOf([])
  }

  predicate AllWritable(types: seq<Search>) {
    types == [] || (Writable(types[0].filter) && AllWritable(types[1..]))
  }

  // ---- Parsing ----

  datatype Tree = Atom(word: Token) | AndNode(left: Tree, right: Tree) | OrNode(left: Tree, right: Tree)

  datatype Parsed = Failed | Parsed(tree: Tree, rest: seq<Token>)

  function ParseOr(ts: seq<Token>): (r: Parsed)
    ensures r.Parsed? ==> |r.rest| < |ts|
    decreases |ts|, 2
  {
    var first := ParseAnd(ts);
    if first.Failed? then Failed else OrTail(first.tree, first.rest)
  }

  function OrTail(left: Tree, ts: seq<Token>): (r: Parsed)
    ensures r.Parsed? ==> |r.rest| <= |ts|
    decreases |ts|, 3
  {
    if ts == [] || ts[0] != OrWord then Parsed(left, ts) else
      var next := ParseAnd(ts[1..]);
      if next.Failed? then Failed else OrTail(OrNode(left, next.tree), next.rest)
  }

  function ParseAnd(ts: seq<Token>): (r: Parsed)
    ensures r.Parsed? ==> |r.rest| < |ts|
    decreases |ts|, 1
  {
    var first := ParsePrimary(ts);
    if first.Failed? then Failed else AndTail(first.tree, first.rest)
  }

  function AndTail(left: Tree, ts: seq<Token>): (r: Parsed)
    ensures r.Parsed? ==> |r.rest| <= |ts|
    decreases |ts|, 3
  {
    if ts == [] || ts[0] != AndWord then Parsed(left, ts) else
      var next := ParsePrimary(ts[1..]);
      if next.Failed? then Failed else AndTail(AndNode(left, next.tree), next.rest)
  }

  function ParsePrimary(ts: seq<Token>): (r: Parsed)
    ensures r.Parsed? ==> |r.rest| < |ts|
    decreases |ts|, 0
  {
    if ts == [] then Failed
    else if IsOperand(ts[0]) then Parsed(Atom(ts[0]), ts[1..])
    else if ts[0].Open? then
      var inner := ParseOr(ts[1..]);
      if inner.Parsed? && inner.rest != [] && inner.rest[0] == Close then Parsed(inner.tree, inner.rest[1..]) else Failed
    else Failed
  }

  // ---- The trees that rendered filters parse to ----

  function TreeOf(f: Filter): Tree {
    match f
    case And(fs) => AndTree(fs)
    case Or(fs) => OrTree(fs)
    case _ => Atom(Leaf(f))
  }

  function AndTree(fs: seq<Filter>): Tree {
    if fs == [] then Atom(OneIsOne) else AndFold(TreeOf(fs[0]), fs[1..])
  }

  function OrTree(fs: seq<Filter>): Tree {
    if fs == [] then Atom(OneIsOne) else OrFold(TreeOf(fs[0]), fs[1..])
  }

  function AndFold(left: Tree, fs: seq<Filter>): Tree
    decreases fs
  {
    if fs == [] then left else AndFold(AndNode(left, TreeOf(fs[0])), fs[1..])
  }

  function OrFold(left: Tree, fs: seq<Filter>): Tree
    decreases fs
  {
    if fs == [] then left else OrFold(OrNode(left, TreeOf(fs[0])), fs[1..])
  }

  /** What a condition parses to: the test of the search type joins the first operand only. */
  function ConditionTree(s: Search): Tree {
    var test := Atom(SearchTypeIs(s.name));
    match s.filter
    case And(fs) => if fs == [] then AndNode(test, Atom(OneIsOne)) else AndFold(AndNode(test, TreeOf(fs[0])), fs[1..])
    case Or(fs) => if fs == [] then AndNode(test, Atom(OneIsOne)) else OrFold(AndNode(test, TreeOf(fs[0])), fs[1..])
    case leaf => AndNode(test, Atom(Leaf(leaf)))
  }

  function MoreTrees(left: Tree, types: seq<Search>): Tree
    decreases |types|
  {
    if types == [] then left else MoreTrees(OrNode(left, ConditionTree(types[0])), types[1..])
  }

  function WhereTree(types: seq<Search>): Tree
    requires types != []
  {
    MoreTrees(ConditionTree(types[0]), types[1..])
  }

  // ---- Parsing inverts rendering ----

  /** Where a parenthesised expression, or the whole text, may end. */
  predicate Ends(ts: seq<Token>) {
    ts == [] || ts[0] == Close
  }

  /** An operand that no AND follows is a conjunction of its own. */
  lemma OperandAlone(ts: seq<Token>, tree: Tree, rest: seq<Token>)
    requires ParsePrimary(ts) == Parsed(tree, rest) && (rest == [] || rest[0] != AndWord)
    ensures ParseAnd(ts) == Parsed(tree, rest)
  {
    assert AndTail(tree, rest) == Parsed(tree, rest);
  }

  lemma ConjunctionAlone(ts: seq<Token>, tree: Tree, rest: seq<Token>)
    requires ParseAnd(ts) == Parsed(tree, rest) && Ends(rest)
    ensures ParseOr(ts) == Parsed(tree, rest)
  {
    assert OrTail(tree, rest) == Parsed(tree, rest);
  }

  lemma {:induction false} RenderParses(f: Filter, rest: seq<Token>)
    requires Ends(rest) && Writable(f)
    ensures ParseOr(Render(f) + rest) == Parsed(TreeOf(f), rest)
    decreases f, 0
  {
    match f
    case And(fs) => AndParses(fs, rest);
    case Or(fs) => OrParses(fs, rest);
    case _ => WordParses(Leaf(f), rest);
  }

  lemma JoinedText(word: Token, fs: seq<Filter>, rest: seq<Token>)
    requires fs != []
    ensures JoinedBy(word, fs) + rest == Parenthesised(fs[0]) + (Rest(word, fs[1..]) + rest)
  {
  }

  lemma {:induction false} AndParses(fs: seq<Filter>, rest: seq<Token>)
    requires Ends(rest) && forall g | g in fs :: Writable(g)
    ensures ParseOr(JoinedBy(AndWord, fs) + rest) == Parsed(AndTree(fs), rest)
    decreases fs, 1
  {
    hide ParseOr, ParsePrimary;
    if fs == [] {
      WordParses(OneIsOne, rest);
    } else {
      JoinedText(AndWord, fs, rest);
      ParenthesisedParses(fs[0], Rest(AndWord, fs[1..]) + rest);
      AndRestParses(TreeOf(fs[0]), fs[1..], rest);
      ConjunctionAlone(JoinedBy(AndWord, fs) + rest, AndTree(fs), rest);
    }
  }

  lemma {:induction false} OrParses(fs: seq<Filter>, rest: seq<Token>)
    requires Ends(rest) && forall g | g in fs :: Writable(g)
    ensures ParseOr(JoinedBy(OrWord, fs) + rest) == Parsed(OrTree(fs), rest)
    decreases fs, 1
  {
    hide ParseAnd, ParsePrimary;
    if fs == [] {
      WordParses(OneIsOne, rest);
    } else {
      var more := Rest(OrWord, fs[1..]) + rest;
      JoinedText(OrWord, fs, rest);
      ParenthesisedParses(fs[0], more);
      OperandAlone(JoinedBy(OrWord, fs) + rest, TreeOf(fs[0]), more);
      OrRestParses(TreeOf(fs[0]), fs[1..], rest);
    }
  }

  lemma WordParses(word: Token, rest: seq<Token>)
    requires (word.Leaf? || word.OneIsOne?) && IsOperand(word) && Ends(rest)
    ensures ParseOr([word] + rest) == Parsed(Atom(word), rest)
  {
    OperandAlone([word] + rest, Atom(word), rest);
    ConjunctionAlone([word] + rest, Atom(word), rest);
  }

  lemma {:induction false} ParenthesisedParses(f: Filter, rest: seq<Token>)
    requires Writable(f)
    ensures ParsePrimary(Parenthesised(f) + rest) == Parsed(TreeOf(f), rest)
    decreases f, 1
  {
    var inside := Render(f) + ([Close] + rest);
    assert Parenthesised(f) + rest == [Open] + inside;
    RenderParses(f, [Close] + rest);
  }

  lemma {:induction false} AndRestParses(left: Tree, fs: seq<Filter>, rest: seq<Token>)
    requires Ends(rest) && forall g | g in fs :: Writable(g)
    ensures AndTail(left, Rest(AndWord, fs) + rest) == Parsed(AndFold(left, fs), rest)
    decreases fs, 0
  {
    if fs == [] {
      assert Rest(AndWord, fs) + rest == rest;
    } else {
      var more := Rest(AndWord, fs[1..]) + rest;
      assert Rest(AndWord, fs) + rest == [AndWord] + (Parenthesised(fs[0]) + more);
      ParenthesisedParses(fs[0], more);
      AndRestParses(AndNode(left, TreeOf(fs[0])), fs[1..], rest);
    }
  }

  lemma {:induction false} OrRestParses(left: Tree, fs: seq<Filter>, rest: seq<Token>)
    requires Ends(rest) && forall g | g in fs :: Writable(g)
    ensures OrTail(left, Rest(OrWord, fs) + rest) == Parsed(OrFold(left, fs), rest)
    decreases fs, 0
  {
    if fs == [] {
      assert Rest(OrWord, fs) + rest == rest;
    } else {
      var more := Rest(OrWord, fs[1..]) + rest;
      assert Rest(OrWord, fs) + rest == [OrWord] + (Parenthesised(fs[0]) + more);
      ParenthesisedParses(fs[0], more);
      OperandAlone(Parenthesised(fs[0]) + more, TreeOf(fs[0]), more);
      OrRestParses(OrNode(left, TreeOf(fs[0])), fs[1..], rest);
    }
  }

  lemma TestParses(name: string, operand: seq<Token>, tree: Tree, rest: seq<Token>)
    requires ParsePrimary(operand) == Parsed(tree, rest)
    ensures ParseAnd([SearchTypeIs(name), AndWord] + operand) == AndTail(AndNode(Atom(SearchTypeIs(name)), tree), rest)
  {
    var text := [SearchTypeIs(name), AndWord] + operand;
    assert text[1..] == [AndWord] + operand;
    assert text[1..][1..] == operand;
    assert ParsePrimary(text) == Parsed(Atom(SearchTypeIs(name)), text[1..]);
  }

  /** The inside of a condition. */
  lemma ConditionParses(s: Search, rest: seq<Token>)
    requires Ends(rest) && Writable(s.filter)
    ensures ParseOr([SearchTypeIs(s.name), AndWord] + (Render(s.filter) + rest)) == Parsed(ConditionTree(s), rest)
  {
    hide ParseOr, ParseAnd, ParsePrimary;
    var test := Atom(SearchTypeIs(s.name));
    var operand := Render(s.filter) + rest;
    var text := [SearchTypeIs(s.name), AndWord] + operand;
    if s.filter.Or? && s.filter.filters != [] {
      OrConditionParses(s, rest);
    } else if s.filter.And? && s.filter.filters != [] {
      var fs := s.filter.filters;
      var more := Rest(AndWord, fs[1..]) + rest;
      JoinedText(AndWord, fs, rest);
      ParenthesisedParses(fs[0], more);
      TestParses(s.name, operand, TreeOf(fs[0]), more);
      AndRestParses(AndNode(test, TreeOf(fs[0])), fs[1..], rest);
      ConjunctionAlone(text, ConditionTree(s), rest);
    } else {
      var word := if IsLeaf(s.filter) then Leaf(s.filter) else OneIsOne;
      assert Render(s.filter) == [word];
      assert ParsePrimary(operand) == Parsed(Atom(word), rest) by {
        WordIsPrimary(word, rest);
      }
      TestParses(s.name, operand, Atom(word), rest);
      ConjunctionAlone(text, ConditionTree(s), rest);
    }
  }

  lemma WordIsPrimary(word: Token, rest: seq<Token>)
    requires (word.Leaf? || word.OneIsOne?) && IsOperand(word)
    ensures ParsePrimary([word] + rest) == Parsed(Atom(word), rest)
  {
  }

  lemma OrConditionParses(s: Search, rest: seq<Token>)
    requires Ends(rest) && Writable(s.filter) && s.filter.Or? && s.filter.filters != []
    ensures ParseOr([SearchTypeIs(s.name), AndWord] + (Render(s.filter) + rest)) == Parsed(ConditionTree(s), rest)
  {
    hide ParseAnd, ParsePrimary;
    var operand := Render(s.filter) + rest;
    var fs := s.filter.filters;
    var more := Rest(OrWord, fs[1..]) + rest;
    var first := AndNode(Atom(SearchTypeIs(s.name)), TreeOf(fs[0]));
    JoinedText(OrWord, fs, rest);
    ParenthesisedParses(fs[0], more);
    TestParses(s.name, operand, TreeOf(fs[0]), more);
    assert AndTail(first, more) == Parsed(first, more);
    OrRestParses(first, fs[1..], rest);
  }

  lemma WholeConditionParses(s: Search, rest: seq<Token>)
    requires Writable(s.filter)
    ensures ParsePrimary(Condition(s) + rest) == Parsed(ConditionTree(s), rest)
  {
    var inside := [SearchTypeIs(s.name), AndWord] + (Render(s.filter) + ([Close] + rest));
    assert Condition(s) + rest == [Open] + inside;
    ConditionParses(s, [Close] + rest);
  }

  lemma {:induction false} MoreConditionsParse(left: Tree, types: seq<Search>)
    requires AllWritable(types)
    ensures OrTail(left, MoreConditions(types)) == Parsed(MoreTrees(left, types), [])
    decreases |types|
  {
    if types != [] {
      var more := MoreConditions(types[1..]);
      assert MoreConditions(types) == [OrWord] + (Condition(types[0]) + more);
      WholeConditionParses(types[0], more);
      OperandAlone(Condition(types[0]) + more, ConditionTree(types[0]), more);
      MoreConditionsParse(OrNode(left, ConditionTree(types[0])), types[1..]);
    }
  }

  lemma WritableParses(types: seq<Search>)
    requires types != [] && AllWritable(types)
    ensures ParseOr(WhereText(types)) == Parsed(WhereTree(types), [])
  {
    var more := MoreConditions(types[1..]);
    WholeConditionParses(types[0], more);
    OperandAlone(WhereText(types), ConditionTree(types[0]), more);
    MoreConditionsParse(ConditionTree(types[0]), types[1..]);
  }

  // ---- What does not parse ----

  /** A word the grammar can take. */
  predicate Readable(t: Token) {
    t.Leaf? ==> IsOperand(t)
  }

  /** What was read is a prefix of readable words of the text. */
  ghost predicate ReadsWell(ts: seq<Token>, r: Parsed) {
    r.Parsed? ==>
      && |r.rest| <= |ts| && r.rest == ts[|ts| - |r.rest|..]
      && forall t | t in ts[..|ts| - |r.rest|] :: Readable(t)
  }

  lemma ReadsOn(ts: seq<Token>, middle: seq<Token>, r: Parsed)
    requires |middle| <= |ts| && middle == ts[|ts| - |middle|..]
    requires forall t | t in ts[..|ts| - |middle|] :: Readable(t)
    requires ReadsWell(middle, r)
    ensures ReadsWell(ts, r)
  {
    if r.Parsed? {
      var read := ts[..|ts| - |middle|] + middle[..|middle| - |r.rest|];
      assert ts[..|ts| - |r.rest|] == read;
    }
  }

  lemma {:induction false} OrReadsWell(ts: seq<Token>)
    ensures ReadsWell(ts, ParseOr(ts))
    decreases |ts|, 2
  {
    AndReadsWell(ts);
    var first := ParseAnd(ts);
    if first.Parsed? {
      OrTailReadsWell(first.tree, first.rest);
      ReadsOn(ts, first.rest, ParseOr(ts));
    }
  }

  lemma {:induction false} OrTailReadsWell(left: Tree, ts: seq<Token>)
    ensures ReadsWell(ts, OrTail(left, ts))
    decreases |ts|, 3
  {
    if ts != [] && ts[0] == OrWord {
      AndReadsWell(ts[1..]);
      var next := ParseAnd(ts[1..]);
      if next.Parsed? {
        ReadsOn(ts, ts[1..], next);
        OrTailReadsWell(OrNode(left, next.tree), next.rest);
        ReadsOn(ts, next.rest, OrTail(left, ts));
      }
    }
  }

  lemma {:induction false} AndReadsWell(ts: seq<Token>)
    ensures ReadsWell(ts, ParseAnd(ts))
    decreases |ts|, 1
  {
    PrimaryReadsWell(ts);
    var first := ParsePrimary(ts);
    if first.Parsed? {
      AndTailReadsWell(first.tree, first.rest);
      ReadsOn(ts, first.rest, ParseAnd(ts));
    }
  }

  lemma {:induction false} AndTailReadsWell(left: Tree, ts: seq<Token>)
    ensures ReadsWell(ts, AndTail(left, ts))
    decreases |ts|, 3
  {
    if ts != [] && ts[0] == AndWord {
      PrimaryReadsWell(ts[1..]);
      var next := ParsePrimary(ts[1..]);
      if next.Parsed? {
        ReadsOn(ts, ts[1..], next);
        AndTailReadsWell(AndNode(left, next.tree), next.rest);
        ReadsOn(ts, next.rest, AndTail(left, ts));
      }
    }
  }

  lemma {:induction false} PrimaryReadsWell(ts: seq<Token>)
    ensures ReadsWell(ts, ParsePrimary(ts))
    decreases |ts|, 0
  {
    if ts != [] && ts[0].Open? && ParsePrimary(ts).Parsed? {
      var inner := ParseOr(ts[1..]);
      OrReadsWell(ts[1..]);
      ReadsOn(ts, ts[1..], inner);
      assert ts[..|ts| - |inner.rest[1..]|] == ts[..|ts| - |inner.rest|] + [inner.rest[0]];
    }
  }

  lemma {:induction false} UnwritableHasIllegal(f: Filter)
    requires !Writable(f)
    ensures Leaf(PgcOneOf([])) in Render(f)
    decreases f, 0
  {
    match f
    case And(fs) => UnwritableJoined(AndWord, fs);
    case Or(fs) => UnwritableJoined(OrWord, fs);
    case _ =>
  }

  lemma {:induction false} UnwritableJoined(word: Token, fs: seq<Filter>)
    requires exists g :: g in fs && !Writable(g)
    ensures Leaf(PgcOneOf([])) in JoinedBy(word, fs)
    decreases fs, 1
  {
    if !Writable(fs[0]) {
      UnwritableHasIllegal(fs[0]);
      assert Leaf(PgcOneOf([])) in Parenthesised(fs[0]);
    } else {
      UnwritableRest(word, fs[1..]);
    }
  }

  lemma {:induction false} UnwritableRest(word: Token, fs: seq<Filter>)
    requires exists g :: g in fs && !Writable(g)
    ensures Leaf(PgcOneOf([])) in Rest(word, fs)
    decreases fs, 0
  {
    if !Writable(fs[0]) {
      UnwritableHasIllegal(fs[0]);
      assert Leaf(PgcOneOf([])) in Parenthesised(fs[0]);
    } else {
      UnwritableRest(word, fs[1..]);
    }
  }

  lemma {:induction false} UnwritableConditions(types: seq<Search>)
    requires !AllWritable(types)
    ensures Leaf(PgcOneOf([])) in MoreConditions(types)
  {
    if !Writable(types[0].filter) {
      UnwritableHasIllegal(types[0].filter);
      assert Leaf(PgcOneOf([])) in Condition(types[0]);
    } else {
      UnwritableConditions(types[1..]);
    }
  }

  lemma UnwritableText(types: seq<Search>)
    requires types != [] && !AllWritable(types)
    ensures Leaf(PgcOneOf([])) in WhereText(types)
  {
    hide Condition, AllWritable;
    UnwritableConditions(types);
    MoreIsWhere(types);
    assert Leaf(PgcOneOf([])) != OrWord;
  }

  lemma MoreIsWhere(types: seq<Search>)
    requires types != []
    ensures MoreConditions(types) == [OrWord] + WhereText(types)
  {
    hide Condition;
  }

  lemma NotWholly(ts: seq<Token>, t: Token)
    requires t in ts && !Readable(t)
    ensures !(ParseOr(ts).Parsed? && ParseOr(ts).rest == [])
  {
    hide ParseOr;
    OrReadsWell(ts);
    assert ts[..|ts| - 0] == ts;
  }

  /** The whole text is one expression iff no list of objects in it is empty; this is then its tree. */
  lemma WhereParses(types: seq<Search>)
    requires types != []
    ensures var parsed := ParseOr(WhereText(types));
      && (parsed.Parsed? && parsed.rest == [] <==> AllWritable(types))
      && (AllWritable(types) ==> parsed == Parsed(WhereTree(types), []))
  {
    if AllWritable(types) {
      WritableParses(types);
    } else {
      UnwritableText(types);
      NotWholly(WhereText(types), Leaf(PgcOneOf([])));
    }
  }

  // ---- What the trees mean ----

  function EvalTree(db: Predicates, tree: Tree, row: Joined): Truth {
    match tree
    case AndNode(a, b) => Both(EvalTree(db, a, row), EvalTree(db, b, row))
    case OrNode(a, b) => Either(EvalTree(db, a, row), EvalTree(db, b, row))
    case Atom(Leaf(f)) => if IsLeaf(f) then EvalLeaf(db, f, row) else Unknown
    case Atom(SearchTypeIs(name)) => TypeIs(row, name)
    case Atom(_) => True
  }

  /** A rendered filter means the filter. */
  lemma {:induction false} TreeMeansFilter(db: Predicates, f: Filter, row: Joined)
    ensures EvalTree(db, TreeOf(f), row) == Eval(db, f, row)
    decreases f, 0
  {
    match f
    case And(fs) =>
      if fs != [] {
        TreeMeansFilter(db, fs[0], row);
        AndFoldMeans(db, TreeOf(fs[0]), fs[1..], row);
      }
    case Or(fs) =>
      if fs != [] {
        TreeMeansFilter(db, fs[0], row);
        OrFoldMeans(db, TreeOf(fs[0]), fs[1..], row);
      }
    case _ =>
  }

  lemma {:induction false} AndFoldMeans(db: Predicates, left: Tree, fs: seq<Filter>, row: Joined)
    ensures EvalTree(db, AndFold(left, fs), row) == Both(EvalTree(db, left, row), EvalAnd(db, fs, row))
    decreases fs, 1
  {
    if fs != [] {
      TreeMeansFilter(db, fs[0], row);
      AndFoldMeans(db, AndNode(left, TreeOf(fs[0])), fs[1..], row);
    }
  }

  lemma {:induction false} OrFoldMeans(db: Predicates, left: Tree, fs: seq<Filter>, row: Joined)
    ensures EvalTree(db, OrFold(left, fs), row) == Either(EvalTree(db, left, row), EvalOr(db, fs, row))
    decreases fs, 1
  {
    if fs != [] {
      TreeMeansFilter(db, fs[0], row);
      OrFoldMeans(db, OrNode(left, TreeOf(fs[0])), fs[1..], row);
    }
  }

  /** The operands after the first of a top-level OR stand beside the test of the search type, not under it. */
  function Loose(f: Filter): seq<Filter> {
    if f.Or? && f.filters != [] then f.filters[1..] else []
  }

  lemma ConditionMeans(db: Predicates, s: Search, row: Joined)
    ensures EvalTree(db, ConditionTree(s), row) ==
      if Loose(s.filter) == [] then Both(TypeIs(row, s.name), Eval(db, s.filter, row))
      else Either(Both(TypeIs(row, s.name), Eval(db, s.filter.filters[0], row)), EvalOr(db, Loose(s.filter), row))
  {
    var test := Atom(SearchTypeIs(s.name));
    match s.filter
    case And(fs) =>
      if fs != [] {
        TreeMeansFilter(db, fs[0], row);
        AndFoldMeans(db, AndNode(test, TreeOf(fs[0])), fs[1..], row);
      }
    case Or(fs) =>
      if fs != [] {
        TreeMeansFilter(db, fs[0], row);
        OrFoldMeans(db, AndNode(test, TreeOf(fs[0])), fs[1..], row);
        assert |fs| == 1 ==> EvalOr(db, fs, row) == Eval(db, fs[0], row) by {
          if |fs| == 1 {
            assert EvalOr(db, fs[1..], row) == False;
          }
        }
      }
    case _ =>
  }

  /** What the text's conditions come to, one search type after the other. */
  function EvalConditions(db: Predicates, types: seq<Search>, row: Joined): Truth {
    if types == [] then False
    else Either(EvalTree(db, ConditionTree(types[0]), row), EvalConditions(db, types[1..], row))
  }

  lemma {:induction false} MoreTreesMean(db: Predicates, left: Tree, types: seq<Search>, row: Joined)
    ensures EvalTree(db, MoreTrees(left, types), row) == Either(EvalTree(db, left, row), EvalConditions(db, types, row))
    decreases |types|
  {
    if types != [] {
      MoreTreesMean(db, OrNode(left, ConditionTree(types[0])), types[1..], row);
    }
  }

  /** The value of the WHERE text as a database reads it; a text that does not parse selects nothing. */
  function EvalText(db: Predicates, types: seq<Search>, row: Joined): Truth
    requires types != []
  {
    var parsed := ParseOr(WhereText(types));
    if parsed.Parsed? && parsed.rest == [] then EvalTree(db, parsed.tree, row) else Unknown
  }

  lemma TextMeansConditions(db: Predicates, types: seq<Search>, row: Joined)
    requires types != [] && AllWritable(types)
    ensures EvalText(db, types, row) == EvalConditions(db, types, row)
  {
    WhereParses(types);
    MoreTreesMean(db, ConditionTree(types[0]), types[1..], row);
  }

  // ---- The main results ----

  /** A search type whose loose operands accept the row, whatever search the row belongs to. */
  predicate Leaks(db: Predicates, types: seq<Search>, row: Joined) {
    types != [] && (EvalOr(db, Loose(types[0].filter), row) == True || Leaks(db, types[1..], row))
  }

  lemma {:induction false} ConditionsTrueIff(db: Predicates, types: seq<Search>, row: Joined)
    ensures EvalConditions(db, types, row) == True <==> EvalSearches(db, types, row) == True || Leaks(db, types, row)
  {
    if types != [] {
      ConditionMeans(db, types[0], row);
      ConditionsTrueIff(db, types[1..], row);
      OrSplits(db, types[0].filter, row);
    }
  }

  lemma OrSplits(db: Predicates, f: Filter, row: Joined)
    ensures Loose(f) != [] ==>
      Eval(db, f, row) == Either(Eval(db, f.filters[0], row), EvalOr(db, Loose(f), row))
    ensures EvalOr(db, [], row) == False
  {
  }

  /** The text selects a row iff the row's own search does, or a loose operand of any search does. */
  lemma TextTrueIff(db: Predicates, types: seq<Search>, row: Joined)
    requires types != [] && AllWritable(types)
    ensures EvalText(db, types, row) == True <==> EvalSearches(db, types, row) == True || Leaks(db, types, row)
  {
    TextMeansConditions(db, types, row);
    ConditionsTrueIff(db, types, row);
  }

  /** Two searches of which the first asks for either of two objects, and a row of the second that only names one of them. */
  function TwoSearches(): seq<Search> {
    [Search("icrs", Or([PgcOneOf([Pgc(1)]), PgcOneOf([Pgc(2)])])), Search("designation", DesignationEquals("M 31"))]
  }

  function StrangerRow(): Joined {
    Joined(Some(SearchRow("r", "designation", Params(None, None, Some("M 31")))), Pgc(2), map[DESIGNATION := Voted("M 32")])
  }

  /** The text selects a row that its own search rejects. */
  lemma StrangerSelected(db: Predicates)
    ensures EvalText(db, TwoSearches(), StrangerRow()) == True && EvalSearches(db, TwoSearches(), StrangerRow()) == False
  {
    var types, row := TwoSearches(), StrangerRow();
    var branches := types[0].filter.filters;
    assert EvalLeaf(db, branches[1], row) == True;
    assert branches[1..] == [PgcOneOf([Pgc(2)])] && branches[1..][1..] == [];
    assert EvalOr(db, branches[1..], row) == True;
    assert Leaks(db, types, row);
    assert TypeIs(row, "icrs") == False && EvalLeaf(db, types[1].filter, row) == False;
    assert EvalSearches(db, types[1..][1..], row) == False;
    assert EvalSearches(db, types[1..], row) == False;
    assert EvalSearches(db, types, row) == False;
    TextTrueIff(db, types, row);
  }

  /** No filter is an OR of two or more at its top. */
  predicate NoLoose(types: seq<Search>) {
    types == [] || (Loose(types[0].filter) == [] && NoLoose(types[1..]))
  }

  lemma {:induction false} ConditionsMeanSearches(db: Predicates, types: seq<Search>, row: Joined)
    requires NoLoose(types)
    ensures EvalConditions(db, types, row) == EvalSearches(db, types, row)
  {
    if types != [] {
      ConditionMeans(db, types[0], row);
      ConditionsMeanSearches(db, types[1..], row);
    }
  }

  /** Without a top-level OR the text has the value it is meant to have, unknowns included. */
  lemma TextMeansSearches(db: Predicates, types: seq<Search>, row: Joined)
    requires types != [] && AllWritable(types) && NoLoose(types)
    ensures EvalText(db, types, row) == EvalSearches(db, types, row)
  {
    TextMeansConditions(db, types, row);
    ConditionsMeanSearches(db, types, row);
  }

  /** With the one search type of `query_catalogs` the text has the value of its filter, whatever the filter. */
  lemma SingleTextMeansFilter(db: Predicates, s: Search, row: Joined)
    requires Writable(s.filter) && row.search.Some? && row.search.value.searchType == s.name
    ensures EvalText(db, [s], row) == Eval(db, s.filter, row)
  {
    TextMeansConditions(db, [s], row);
    ConditionMeans(db, s, row);
    OrSplits(db, s.filter, row);
    assert EvalConditions(db, [s][1..], row) == False;
  }
}

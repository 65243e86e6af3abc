/** The FROM clause read back as the database reads it: how the joins group, and what that makes of the tables. */
module FromClause {
  import opened Collections
  import opened Filters
  import opened Joins
  import opened QueryPlan
  import FilterText
  import BatchQuery

  datatype Word =
    | Searches
    | Named(table: Relation)
    | CrossWord
    | LeftWord
    | FullWord
    | UsingPgc
    | Open
    | Close

  // ---- Text ----

  function WordText(w: Word): string {
    match w
    case Searches => "search_params sp"
    case Named(table) => table
    case CrossWord => " CROSS JOIN "
    case LeftWord => " LEFT JOIN "
    case FullWord => " FULL JOIN "
    case UsingPgc => " USING (pgc)"
    case Open => "("
    case Close => ")"
  }

  function Text(words: seq<Word>): string {
    if words == [] then "" else WordText(words[0]) + Text(words[1..])
  }

  lemma TextOn(w: Word, rest: seq<Word>)
    ensures Text([w] + rest) == WordText(w) + Text(rest)
  {
    assert ([w] + rest)[1..] == rest;
  }

  function JoinWords(join: Word, tables: seq<Relation>): seq<Word> {
    if tables == [] then [] else [join, Named(tables[0]), UsingPgc] + JoinWords(join, tables[1..])
  }

  function JoinWord(driving: Option<Relation>): Word {
    if driving.Some? then LeftWord else FullWord
  }

  /** The words between FROM and WHERE. */
  function FromWords(driving: Option<Relation>, names: seq<Relation>): seq<Word>
    requires names != []
  {
    var order := FromOrder(driving, names);
    [Searches, CrossWord, Named(order[0])] + JoinWords(JoinWord(driving), order[1..])
  }

  lemma JoinFirstTwo(separator: string, x: string, y: string, rest: seq<string>)
    ensures BatchQuery.JoinStrings(separator, [x, y] + rest) ==
            BatchQuery.JoinStrings(separator, [x + (separator + y)] + rest)
  {
    var long, short := [x, y] + rest, [x + (separator + y)] + rest;
    if rest == [] {
      assert long[..1] == [x];
    } else {
      var front := rest[..|rest| - 1];
      JoinFirstTwo(separator, x, y, front);
      assert long[..|long| - 1] == [x, y] + front;
      assert short[..|short| - 1] == [x + (separator + y)] + front;
    }
  }

  lemma JoinedText(join: Word, table: Relation, rest: seq<Word>)
    ensures Text([join, Named(table), UsingPgc] + rest) == (WordText(join) + (table + " USING (pgc)")) + Text(rest)
  {
    hide Text;
    assert [join, Named(table), UsingPgc] + rest == [join] + ([Named(table)] + ([UsingPgc] + rest));
    TextOn(UsingPgc, rest);
    TextOn(Named(table), [UsingPgc] + rest);
    TextOn(join, [Named(table)] + ([UsingPgc] + rest));
    FilterText.Regroup(table, " USING (pgc)", Text(rest));
    FilterText.Regroup(WordText(join), table + " USING (pgc)", Text(rest));
  }

  lemma {:induction false} JoinsAreWords(join: Word, first: string, tables: seq<Relation>)
    ensures BatchQuery.JoinStrings(WordText(join), [first] + BatchQuery.Using(tables)) ==
            first + Text(JoinWords(join, tables))
    decreases |tables|
  {
    hide WordText, Text;
    if tables == [] {
      assert [first] + BatchQuery.Using(tables) == [first];
      NoText(first);
    } else {
      var next, rest := tables[0] + " USING (pgc)", BatchQuery.Using(tables[1..]);
      assert [first] + ([next] + rest) == [first, next] + rest;
      JoinFirstTwo(WordText(join), first, next, rest);
      JoinsAreWords(join, first + (WordText(join) + next), tables[1..]);
      JoinedText(join, tables[0], JoinWords(join, tables[1..]));
      FilterText.Regroup(first, WordText(join) + next, Text(JoinWords(join, tables[1..])));
    }
  }

  lemma NoText(first: string)
    ensures first + Text([]) == first
  {}

  lemma HeadText(table: Relation, rest: seq<Word>)
    ensures " FROM " + Text([Searches, CrossWord, Named(table)] + rest) == BatchQuery.FROM_HEAD + (table + Text(rest))
  {
    hide Text;
    assert [Searches, CrossWord, Named(table)] + rest == [Searches] + ([CrossWord] + ([Named(table)] + rest));
    TextOn(Named(table), rest);
    TextOn(CrossWord, [Named(table)] + rest);
    TextOn(Searches, [CrossWord] + ([Named(table)] + rest));
    FilterText.Regroup(" FROM ", "search_params sp" + " CROSS JOIN ", table + Text(rest));
    FilterText.Regroup("search_params sp", " CROSS JOIN ", table + Text(rest));
  }

  /** The words are the text the query has between its columns and its conditions. */
  lemma FromTextIsWords(driving: Option<Relation>, names: seq<Relation>)
    requires names != []
    ensures BatchQuery.FROM_HEAD + BatchQuery.JoinedTables(driving, names) == " FROM " + Text(FromWords(driving, names))
  {
    hide Text, JoinWords;
    var order := FromOrder(driving, names);
    JoinsAreWords(JoinWord(driving), order[0], order[1..]);
    HeadText(order[0], JoinWords(JoinWord(driving), order[1..]));
  }

  // ---- Parsing ----

  /** What a FROM clause can be: a LEFT or FULL JOIN has a table on its right, a CROSS JOIN anything. */
  datatype Tree =
    | SearchParams
    | Single(table: Relation)
    | Cross(left: Tree, right: Tree)
    | Left(left: Tree, table: Relation)
    | Full(left: Tree, table: Relation)

  datatype Parsed = Failed | Parsed(tree: Tree, rest: seq<Word>)

  function ParseFrom(words: seq<Word>): (r: Parsed)
    ensures r.Parsed? ==> |r.rest| < |words|
    decreases |words|, 2
  {
    var first := ParseOperand(words);
    if first.Failed? then Failed else JoinTail(first.tree, first.rest)
  }

  /** Joins bind from the left: what has been read so far is the left operand of the next join. */
  function JoinTail(left: Tree, words: seq<Word>): (r: Parsed)
    ensures r.Parsed? ==> |r.rest| <= |words|
    decreases |words|, 3
  {
    if words == [] then Parsed(left, words)
    else if words[0].CrossWord? then
      var right := ParseOperand(words[1..]);
      if right.Failed? then Failed else JoinTail(Cross(left, right.tree), right.rest)
    else if words[0].LeftWord? || words[0].FullWord? then
      if |words| >= 3 && words[1].Named? && words[2].UsingPgc? then
        JoinTail(if words[0].LeftWord? then Left(left, words[1].table) else Full(left, words[1].table), words[3..])
      else Failed
    else Parsed(left, words)
  }

  function ParseOperand(words: seq<Word>): (r: Parsed)
    ensures r.Parsed? ==> |r.rest| < |words|
    decreases |words|, 0
  {
    if words == [] then Failed
    else if words[0].Searches? then Parsed(SearchParams, words[1..])
    else if words[0].Named? then Parsed(Single(words[0].table), words[1..])
    else if words[0].Open? then
      var inner := ParseFrom(words[1..]);
      if inner.Parsed? && inner.rest != [] && inner.rest[0] == Close then Parsed(inner.tree, inner.rest[1..]) else Failed
    else Failed
  }

  function Chain(join: Word, left: Tree, tables: seq<Relation>): Tree
    decreases |tables|
  {
    if tables == [] then left else
      Chain(join, if join.LeftWord? then Left(left, tables[0]) else Full(left, tables[0]), tables[1..])
  }

  /** Nothing that could go on the joins. */
  predicate Ends(rest: seq<Word>) {
    rest == [] || rest[0].Close?
  }

  lemma {:induction false} ChainParses(join: Word, left: Tree, tables: seq<Relation>, rest: seq<Word>)
    requires (join.LeftWord? || join.FullWord?) && Ends(rest)
    ensures JoinTail(left, JoinWords(join, tables) + rest) == Parsed(Chain(join, left, tables), rest)
    decreases |tables|
  {
    if tables == [] {
      assert JoinWords(join, tables) + rest == rest;
    } else {
      var more := JoinWords(join, tables[1..]) + rest;
      var words := JoinWords(join, tables) + rest;
      assert words == [join, Named(tables[0]), UsingPgc] + more && words[3..] == more;
      ChainParses(join, if join.LeftWord? then Left(left, tables[0]) else Full(left, tables[0]), tables[1..], rest);
    }
  }

  /** The clause begins with the search parameters and one operand beside them. */
  lemma StartsWith(w: Word, operand: Tree, words: seq<Word>, rest: seq<Word>)
    requires ParseOperand([w] + words) == Parsed(operand, rest)
    ensures ParseFrom([Searches] + ([CrossWord] + ([w] + words))) == JoinTail(Cross(SearchParams, operand), rest)
  {
    var joined := [CrossWord] + ([w] + words);
    assert ([Searches] + joined)[1..] == joined && joined[1..] == [w] + words;
    assert ParseOperand([Searches] + joined) == Parsed(SearchParams, joined);
    assert JoinTail(SearchParams, joined) == JoinTail(Cross(SearchParams, operand), rest);
  }

  lemma FromParses(driving: Option<Relation>, names: seq<Relation>)
    requires names != []
    ensures var order := FromOrder(driving, names);
            ParseFrom(FromWords(driving, names)) ==
              Parsed(Chain(JoinWord(driving), Cross(SearchParams, Single(order[0])), order[1..]), [])
  {
    hide JoinWords, Chain;
    var order := FromOrder(driving, names);
    var tail := JoinWords(JoinWord(driving), order[1..]);
    assert FromWords(driving, names) == [Searches] + ([CrossWord] + ([Named(order[0])] + tail));
    StartsWith(Named(order[0]), Single(order[0]), tail, tail);
    assert tail + [] == tail;
    ChainParses(JoinWord(driving), Cross(SearchParams, Single(order[0])), order[1..], []);
  }

  // ---- Meaning ----

  /** Search parameters have no PGC yet; everything joined has one. */
  datatype Answer = Rows(rows: seq<Joined>) | Values(values: seq<SearchRow>) | NoAnswer

  function Eval(contents: Contents, values: seq<SearchRow>, tree: Tree): Answer {
    match tree
    case SearchParams => Values(values)
    case Single(t) => Rows(Scan(t, contents(t)))
    case Cross(a, b) =>
      var left, right := Eval(contents, values, a), Eval(contents, values, b);
      if left.Values? && right.Rows? then Rows(CrossJoin(left.values, right.rows)) else NoAnswer
    case Left(a, t) =>
      var left := Eval(contents, values, a);
      if left.Rows? then Rows(LeftJoin(left.rows, Table(t, contents(t)))) else NoAnswer
    case Full(a, t) =>
      var left := Eval(contents, values, a);
      if left.Rows? then Rows(FullJoin(left.rows, Table(t, contents(t)))) else NoAnswer
  }

  /** What the database makes of a FROM clause. */
  function EvalFrom(contents: Contents, values: seq<SearchRow>, words: seq<Word>): Answer {
    var parsed := ParseFrom(words);
    if parsed.Parsed? && parsed.rest == [] then Eval(contents, values, parsed.tree) else NoAnswer
  }

  lemma {:induction false} ChainMeans(
    contents: Contents, values: seq<SearchRow>, join: Word, left: Tree, rows: seq<Joined>, tables: seq<Relation>)
    requires Eval(contents, values, left) == Rows(rows)
    ensures Eval(contents, values, Chain(join, left, tables)) ==
            Rows(if join.LeftWord? then LeftJoins(rows, TablesOf(contents, tables))
                 else FullJoins(rows, TablesOf(contents, tables)))
    decreases |tables|
  {
    hide LeftJoin, FullJoin;
    if tables != [] {
      var t := Table(tables[0], contents(tables[0]));
      assert TablesOf(contents, tables)[1..] == TablesOf(contents, tables[1..]);
      if join.LeftWord? {
        ChainMeans(contents, values, join, Left(left, tables[0]), LeftJoin(rows, t), tables[1..]);
      } else {
        ChainMeans(contents, values, join, Full(left, tables[0]), FullJoin(rows, t), tables[1..]);
      }
    }
  }

  /** The text that a query has after FROM, parsed and evaluated, selects from the joins the plan says. */
  lemma FromMeansEmitted(contents: Contents, values: seq<SearchRow>, driving: Option<Relation>, names: seq<Relation>)
    requires names != []
    ensures EvalFrom(contents, values, FromWords(driving, names)) == Rows(Emitted(contents, values, driving, names))
  {
    hide LeftJoins, FullJoins, ParseFrom, Chain;
    var order := FromOrder(driving, names);
    FromParses(driving, names);
    var first := CrossJoin(values, Scan(order[0], contents(order[0])));
    ChainMeans(contents, values, JoinWord(driving), Cross(SearchParams, Single(order[0])), first, order[1..]);
    assert TablesOf(contents, order)[1..] == TablesOf(contents, order[1..]);
  }

  // ---- With parentheses ----

  /** The same clause with the tables joined among themselves first. */
  function GroupedWords(driving: Option<Relation>, names: seq<Relation>): seq<Word>
    requires names != []
  {
    var subject := Subject(driving, names);
    [Searches, CrossWord, Open, Named(subject[0])] + (JoinWords(FullWord, subject[1..]) + [Close])
  }

  lemma GroupedParses(driving: Option<Relation>, names: seq<Relation>)
    requires names != []
    ensures var subject := Subject(driving, names);
            ParseFrom(GroupedWords(driving, names)) ==
              Parsed(Cross(SearchParams, Chain(FullWord, Single(subject[0]), subject[1..])), [])
  {
    hide JoinWords, Chain;
    var subject := Subject(driving, names);
    var tail := JoinWords(FullWord, subject[1..]) + [Close];
    var inside := [Named(subject[0])] + tail;
    assert GroupedWords(driving, names) == [Searches] + ([CrossWord] + ([Open] + inside));
    ChainParses(FullWord, Single(subject[0]), subject[1..], [Close]);
    var tree := Chain(FullWord, Single(subject[0]), subject[1..]);
    assert inside[1..] == tail;
    assert ParseFrom(inside) == Parsed(tree, [Close]);
    assert ([Open] + inside)[1..] == inside && [Close][1..] == [];
    StartsWith(Open, tree, inside, []);
  }

  /** With parentheses the clause would be the full join that the query stands for. */
  lemma GroupedMeansIntended(contents: Contents, values: seq<SearchRow>, driving: Option<Relation>, names: seq<Relation>)
    requires names != []
    ensures EvalFrom(contents, values, GroupedWords(driving, names)) == Rows(Intended(contents, values, driving, names))
  {
    hide FullJoin, ParseFrom, Chain, Scan, CrossJoin;
    var subject := Subject(driving, names);
    var tree := Chain(FullWord, Single(subject[0]), subject[1..]);
    GroupedParses(driving, names);
    var tables, rest := TablesOf(contents, subject), TablesOf(contents, subject[1..]);
    assert tables[0] == Table(subject[0], contents(subject[0])) && tables[1..] == rest;
    var rows := Scan(subject[0], contents(subject[0]));
    ChainMeans(contents, values, FullWord, Single(subject[0]), rows, subject[1..]);
    assert FullJoinOf(tables) == FullJoins(rows, rest);
    assert Eval(contents, values, tree) == Rows(FullJoinOf(tables));
    assert Eval(contents, values, Cross(SearchParams, tree)) == Rows(CrossJoin(values, FullJoinOf(tables)));
  }
}

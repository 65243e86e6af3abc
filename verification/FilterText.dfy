/** A filter's query text and parameters, and the words the text is made of. */
module FilterText {
  import opened Filters
  import opened Rendering
  import opened Binding

  // ---- Filters ----

  /** `get_query` */
  function GetQuery(f: Filter): string
    decreases f, 0
  {
    match f
    case And(fs) => if fs == [] then "1=1" else JoinQueries(" AND ", fs)
    case Or(fs) => if fs == [] then "1=1" else JoinQueries(" OR ", fs)
    case _ => LeafText(f)
  }

  function JoinQueries(separator: string, fs: seq<Filter>): string
    requires fs != []
    decreases fs, 0
  {
    "(" + (GetQuery(fs[0]) + (")" + (if |fs| == 1 then "" else separator + JoinQueries(separator, fs[1..]))))
  }

  /** `get_params` */
  function GetParams(f: Filter): seq<Value>
    decreases f, 0
  {
    match f
    case And(fs) => AllParams(fs)
    case Or(fs) => AllParams(fs)
    case _ => LeafValues(f)
  }

  function AllParams(fs: seq<Filter>): seq<Value> {
    if fs == [] then [] else GetParams(fs[0]) + AllParams(fs[1..])
  }

  lemma {:induction false} AllParamsLast(fs: seq<Filter>, i: nat)
    requires i < |fs|
    ensures AllParams(fs[..i + 1]) == AllParams(fs[..i]) + GetParams(fs[i])
  {
    if i == 0 {
      assert fs[..1] == [fs[0]];
      assert AllParams(fs[..1][1..]) == [];
    } else {
      assert fs[..i + 1][1..] == fs[1..][..i] && fs[..i][1..] == fs[1..][..i - 1];
      AllParamsLast(fs[1..], i - 1);
    }
  }

  /** The loops of And and Or extend a list by each child's parameters. */
  method CollectParams(f: Filter) returns (params: seq<Value>)
    ensures params == GetParams(f)
    decreases f
  {
    if f.And? || f.Or? {
      params := [];
      for i := 0 to |f.filters|
        invariant params == AllParams(f.filters[..i])
      {
        var own := CollectParams(f.filters[i]);
        AllParamsLast(f.filters, i);
        params := params + own;
      }
      assert f.filters[..|f.filters|] == f.filters;
    } else {
      params := LeafValues(f);
    }
  }

  // ---- Words ----

  function TokenText(t: Token): string {
    match t
    case Open => "("
    case Close => ")"
    case AndWord => " AND "
    case OrWord => " OR "
    case Leaf(f) => LeafText(f)
    case OneIsOne => "1=1"
    case SearchTypeIs(name) => "sp.search_type = '" + (name + "'")
  }

  function TokenValues(t: Token): seq<Value> {
    if t.Leaf? then LeafValues(t.filter) else []
  }

  function TokenPieces(t: Token): seq<Piece> {
    if t.Leaf? then LeafPieces(t.filter) else Letters(TokenText(t))
  }

  function Text(ts: seq<Token>): string {
    if ts == [] then "" else TokenText(ts[0]) + Text(ts[1..])
  }

  function Values(ts: seq<Token>): seq<Value> {
    if ts == [] then [] else TokenValues(ts[0]) + Values(ts[1..])
  }

  /** Every word of a text with its own values in place. */
  function Pieces(ts: seq<Token>): seq<Piece> {
    if ts == [] then [] else TokenPieces(ts[0]) + Pieces(ts[1..])
  }

  predicate Proper(t: Token) {
    (t.Leaf? ==> IsLeaf(t.filter)) && (t.SearchTypeIs? ==> Plain(t.name))
  }

  lemma TokenBinds(t: Token)
    requires Proper(t)
    ensures Binds(TokenText(t), TokenValues(t), TokenPieces(t))
  {
    if t.Leaf? {
      LeafBinds(t.filter);
    } else {
      if t.SearchTypeIs? {
        PlainAppend(t.name, "'");
        PlainAppend("sp.search_type = '", t.name + "'");
      }
      PlainBinds(TokenText(t));
    }
  }

  lemma {:induction false} WordsBind(ts: seq<Token>)
    requires forall t | t in ts :: Proper(t)
    ensures Binds(Text(ts), Values(ts), Pieces(ts))
  {
    if ts == [] {
      PlainBinds("");
    } else {
      assert ts[0] in ts;
      assert forall t | t in ts[1..] :: t in ts;
      TokenBinds(ts[0]);
      WordsBind(ts[1..]);
      BindsJoin(TokenText(ts[0]), Text(ts[1..]), TokenValues(ts[0]), Values(ts[1..]), TokenPieces(ts[0]), Pieces(ts[1..]));
    }
  }

  lemma {:induction false} WordsAppend(a: seq<Token>, b: seq<Token>)
    ensures Text(a + b) == Text(a) + Text(b) && Values(a + b) == Values(a) + Values(b)
  {
    hide TokenText, TokenValues;
    if a == [] {
      assert a + b == b;
    } else {
      assert (a + b)[0] == a[0] && (a + b)[1..] == a[1..] + b;
      WordsAppend(a[1..], b);
      Regroup(TokenText(a[0]), Text(a[1..]), Text(b));
      Regroup(TokenValues(a[0]), Values(a[1..]), Values(b));
    }
  }

  lemma WordText(t: Token)
    ensures Text([t]) == TokenText(t) && Values([t]) == TokenValues(t)
  {
    assert [t][1..] == [];
  }

  // ---- A filter's text is its words ----

  lemma {:induction false} QueryIsWords(f: Filter)
    ensures GetQuery(f) == Text(Render(f)) && GetParams(f) == Values(Render(f))
    decreases f, 0
  {
    match f
    case And(fs) => JoinedIsWords(AndWord, fs);
    case Or(fs) => JoinedIsWords(OrWord, fs);
    case _ => WordText(Leaf(f));
  }

  lemma JoinQueriesUnfolds(separator: string, fs: seq<Filter>)
    requires fs != []
    ensures JoinQueries(separator, fs) ==
      ("(" + (GetQuery(fs[0]) + ")")) + (if fs[1..] == [] then "" else separator + JoinQueries(separator, fs[1..]))
  {
    var rest := if fs[1..] == [] then "" else separator + JoinQueries(separator, fs[1..]);
    Regroup(GetQuery(fs[0]), ")", rest);
    Regroup("(", GetQuery(fs[0]) + ")", rest);
  }

  lemma Regroup<T>(a: seq<T>, b: seq<T>, c: seq<T>)
    ensures a + (b + c) == (a + b) + c
  {
  }

  lemma {:induction false} JoinedIsWords(word: Token, fs: seq<Filter>)
    requires word == AndWord || word == OrWord
    ensures Text(JoinedBy(word, fs)) == if fs == [] then "1=1" else JoinQueries(TokenText(word), fs)
    ensures Values(JoinedBy(word, fs)) == AllParams(fs)
    decreases fs, 2
  {
    if fs == [] {
      WordText(OneIsOne);
    } else {
      hide TokenText, Text, Values, GetQuery, JoinQueries;
      ParenthesisedIsWords(fs[0]);
      RestIsWords(word, fs[1..]);
      WordsAppend(Parenthesised(fs[0]), Rest(word, fs[1..]));
      JoinQueriesUnfolds(TokenText(word), fs);
    }
  }

  lemma {:induction false} ParenthesisedIsWords(f: Filter)
    ensures Text(Parenthesised(f)) == "(" + (GetQuery(f) + ")") && Values(Parenthesised(f)) == GetParams(f)
    decreases f, 1
  {
    hide GetQuery, GetParams, Render, Text, Values;
    QueryIsWords(f);
    WordText(Open);
    WordText(Close);
    WordsAppend([Open] + Render(f), [Close]);
    WordsAppend([Open], Render(f));
    assert [] + Values(Render(f)) + [] == Values(Render(f));
    Regroup("(", GetQuery(f), ")");
  }

  lemma {:induction false} RestIsWords(word: Token, fs: seq<Filter>)
    requires word == AndWord || word == OrWord
    ensures Text(Rest(word, fs)) == if fs == [] then "" else TokenText(word) + JoinQueries(TokenText(word), fs)
    ensures Values(Rest(word, fs)) == AllParams(fs)
    decreases fs, 1
  {
    if fs == [] {
    } else {
      hide TokenText, Text, Values, GetQuery, JoinQueries, LeafValues;
      var rest := Rest(word, fs[1..]);
      ParenthesisedIsWords(fs[0]);
      RestIsWords(word, fs[1..]);
      WordText(word);
      WordsAppend([word] + Parenthesised(fs[0]), rest);
      WordsAppend([word], Parenthesised(fs[0]));
      JoinQueriesUnfolds(TokenText(word), fs);
      Regroup(TokenText(word), Text(Parenthesised(fs[0])), Text(rest));
      assert [] + GetParams(fs[0]) == GetParams(fs[0]);
    }
  }
}

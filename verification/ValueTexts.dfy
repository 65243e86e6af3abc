/** The list of searches of a query read as the database reads it, and what each search is given by name. */
module ValueTexts {
  import opened Collections
  import opened Filters
  import opened Binding
  import BatchQuery
  import Sql
  import opened LeafTexts
  import opened QueryTexts
  import opened WhereTexts
  import opened SelectTexts

  // ---- Reading ----

  /** Lists in parentheses, with commas between them. */
  function Tuples(ts: seq<Sql.Token>): Option<seq<seq<Sql.Expr>>>
    decreases |ts|
  {
    if ts == [] || !ts[0].Open? then Option.None else
      var list := Sql.Enclosed(Sql.ParseList(ts[1..]));
      if list.Failed? then Option.None
      else if list.rest == [] then Some([list.value])
      else if !list.rest[0].Comma? then Option.None
      else
        var more := Tuples(list.rest[1..]);
        if more.None? then Option.None else Some([list.value] + more.value)
  }

  function ReadLines(ps: seq<Piece>): Option<seq<seq<Sql.Expr>>> {
    var ts := Sql.Lex(ps);
    if ts.None? then Option.None else Tuples(ts.value)
  }

  /** What a line has under a name. */
  function Under(names: seq<Sql.Expr>, line: seq<Sql.Expr>, name: string): Option<Sql.Expr>
    requires |names| == |line|
  {
    if names == [] then Option.None
    else if names[0] == Sql.Name([name]) then Some(line[0])
    else Under(names[1..], line[1..], name)
  }

  // ---- One line ----

  function LineExprs(v: SearchRow): seq<Sql.Expr> {
    [Sql.Fixed(OfText(v.recordId)), Sql.Fixed(OfText(v.searchType)), Sql.Cast(Sql.Fixed(OfJson(v.params)), "jsonb")]
  }

  function LineTokens(v: SearchRow): seq<Sql.Token> {
    [Sql.Open] + (Sql.PrintList(LineExprs(v)) + [Sql.Close])
  }

  lemma JsonWord()
    ensures Sql.IsWord("jsonb") && !Sql.IsKeyword("jsonb")
  {
    LowerIsNoKeyword("jsonb");
  }

  lemma LineFine(v: SearchRow)
    ensures Sql.AllNamed(LineExprs(v)) && Sql.AllWordy(LineExprs(v))
  {
    JsonWord();
    FixedWritten(OfText(v.recordId));
    FixedWritten(OfText(v.searchType));
    FixedWritten(OfJson(v.params));
    hide Sql.IsWord, Sql.IsKeyword;
    forall e | e in LineExprs(v) ensures Sql.Named(e) && Sql.Wordy(e) {
      assert e == LineExprs(v)[0] || e == LineExprs(v)[1] || e == LineExprs(v)[2];
    }
  }

  lemma JsonWritten(v: Value)
    ensures Sql.Written(Sql.PrintExpr(Sql.Cast(Sql.Fixed(v), "jsonb"))) == [Hole(v)] + Letters("::jsonb")
  {
    JsonWord();
    hide Sql.Written, Sql.IsWord, Sql.IsKeyword, Letters;
    FixedWritten(v);
    Sql.PrintsAlike(Sql.Fixed(v));
    Sql.WordWritten("jsonb");
    Sql.SignsWritten();
    Sql.WrittenJoin([Sql.CastSign], "::", [Sql.Word("jsonb")], "jsonb");
    assert [Sql.CastSign] + [Sql.Word("jsonb")] == [Sql.CastSign, Sql.Word("jsonb")];
    assert "::" + "jsonb" == "::jsonb";
    Sql.WrittenAppend(Sql.PrintCast(Sql.Fixed(v)), [Sql.CastSign, Sql.Word("jsonb")]);
  }

  lemma LineWritten(v: SearchRow)
    ensures Sql.Written(LineTokens(v)) == BatchQuery.LinePieces(v)
  {
    var a, b, c := OfText(v.recordId), OfText(v.searchType), OfJson(v.params);
    var x, y, z := Sql.Fixed(a), Sql.Fixed(b), Sql.Cast(Sql.Fixed(c), "jsonb");
    hide Sql.Written, Letters;
    FixedWritten(a);
    FixedWritten(b);
    JsonWritten(c);
    assert Sql.PrintList([z]) == Sql.PrintExpr(z);
    ListOn(y, [z], [Hole(b)], [Hole(c)] + Letters("::jsonb"));
    assert [y] + [z] == [y, z];
    ListOn(x, [y, z], [Hole(a)], [Hole(b)] + (Letters(", ") + ([Hole(c)] + Letters("::jsonb"))));
    assert [x] + [y, z] == LineExprs(v);
    Sql.SignsWritten();
    Sql.WrittenAppend(Sql.PrintList(LineExprs(v)), [Sql.Close]);
    Sql.WrittenAppend([Sql.Open], Sql.PrintList(LineExprs(v)) + [Sql.Close]);
    JsonText();
    Sql.LettersAppend("::jsonb", ")");
    LineRegroup(Letters("("), [Hole(a)], Letters(", "), [Hole(b)], [Hole(c)], Letters("::jsonb"), Letters(")"));
  }

  lemma JsonText()
    ensures "::jsonb" + ")" == "::jsonb)"
  {}

  lemma LineRegroup<T>(open: seq<T>, a: seq<T>, comma: seq<T>, b: seq<T>, c: seq<T>, kind: seq<T>, close: seq<T>)
    ensures open + ((a + (comma + (b + (comma + (c + kind))))) + close) ==
      open + (a + (comma + (b + (comma + (c + (kind + close))))))
  {}

  // ---- All lines ----

  function TokensOfLines(values: seq<SearchRow>): seq<Sql.Token> {
    if values == [] then []
    else if |values| == 1 then LineTokens(values[0])
    else LineTokens(values[0]) + ([Sql.Comma] + TokensOfLines(values[1..]))
  }

  function ItemsOfLines(values: seq<SearchRow>): seq<Sql.Item> {
    if values == [] then []
    else if |values| == 1 then Sql.Layout(LineTokens(values[0]))
    else Sql.Layout(LineTokens(values[0])) + ([Sql.Tok(Sql.Comma)] + ItemsOfLines(values[1..]))
  }

  lemma {:induction false} FirstLine(values: seq<SearchRow>)
    requires |values| > 1
    ensures BatchQuery.LinesPieces(values) ==
      BatchQuery.LinePieces(values[0]) + (Letters(",") + BatchQuery.LinesPieces(values[1..]))
  {
    hide BatchQuery.LinePieces, Letters;
    var front, last := values[..|values| - 1], values[|values| - 1];
    if |values| == 2 {
      assert front == [values[0]] && values[1..] == [last];
    } else {
      FirstLine(front);
      assert front[1..] == values[1..][..|values| - 2] && values[1..][|values| - 2] == last;
      Sql.LeftGroup(Letters(","), BatchQuery.LinesPieces(front[1..]), Letters(",") + BatchQuery.LinePieces(last));
      Sql.LeftGroup(BatchQuery.LinePieces(values[0]), Letters(",") + BatchQuery.LinesPieces(front[1..]),
        Letters(",") + BatchQuery.LinePieces(last));
    }
  }

  lemma LineLaidOut(v: SearchRow)
    ensures var laid := Sql.Layout(LineTokens(v));
      && Sql.Spell(laid) == BatchQuery.LinePieces(v) && Sql.TokensOf(laid) == LineTokens(v) && Sql.Readable(laid)
  {
    hide Sql.Legible, LineExprs, BatchQuery.LinePieces, Sql.Spell, Sql.TokensOf, Sql.Readable;
    LineFine(v);
    Sql.ListLegible(LineExprs(v));
    Sql.LegibleEnclosed(Sql.PrintList(LineExprs(v)));
    LineWritten(v);
    Sql.LayoutReadable(LineTokens(v));
    Sql.LayoutTokens(LineTokens(v));
  }

  lemma {:induction false} LinesItems(values: seq<SearchRow>)
    requires values != []
    ensures Sql.Readable(ItemsOfLines(values)) && Sql.Spell(ItemsOfLines(values)) == BatchQuery.LinesPieces(values)
    ensures Sql.TokensOf(ItemsOfLines(values)) == TokensOfLines(values)
  {
    hide Sql.Readable, Sql.Spell, Sql.TokensOf, Sql.Layout, LineTokens, BatchQuery.LinePieces, Letters;
    LineLaidOut(values[0]);
    if |values| == 1 {
      assert values == [values[0]];
    } else {
      LinesItems(values[1..]);
      FirstLine(values);
      CommaFacts();
      hide Begins, Finishes;
      var laid, comma, rest := Sql.Layout(LineTokens(values[0])), [Sql.Tok(Sql.Comma)], ItemsOfLines(values[1..]);
      ReadableAppend(comma, rest);
      CommaBegins(rest);
      ReadableAppend(laid, comma + rest);
      Sql.TokensAppend(comma, rest);
      Sql.TokensAppend(laid, comma + rest);
    }
  }

  predicate AreLines(values: seq<SearchRow>, lines: seq<seq<Sql.Expr>>) {
    |lines| == |values| && forall i | 0 <= i < |values| :: lines[i] == LineExprs(values[i])
  }

  lemma TupleParsed(list: seq<Sql.Expr>, rest: seq<Sql.Token>)
    requires list != [] && Sql.AllNamed(list) && (rest == [] || rest[0].Comma?)
    ensures Tuples([Sql.Open] + (Sql.PrintList(list) + ([Sql.Close] + rest))) ==
      if rest == [] then Some([list])
      else if Tuples(rest[1..]).None? then Option.None
      else Some([list] + Tuples(rest[1..]).value)
  {
    hide Sql.ParseList, Sql.PrintList;
    Sql.ListParses(list, [Sql.Close] + rest);
    var ts := [Sql.Open] + (Sql.PrintList(list) + ([Sql.Close] + rest));
    assert ts[1..] == Sql.PrintList(list) + ([Sql.Close] + rest) && ([Sql.Close] + rest)[1..] == rest;
  }

  lemma {:induction false} LinesParsed(values: seq<SearchRow>)
    requires values != []
    ensures Tuples(TokensOfLines(values)).Some? && AreLines(values, Tuples(TokensOfLines(values)).value)
  {
    hide Sql.PrintList, LineExprs, Tuples;
    var list, rest := LineExprs(values[0]), if |values| == 1 then [] else [Sql.Comma] + TokensOfLines(values[1..]);
    LineFine(values[0]);
    NotNothing(values[0]);
    TupleParsed(list, rest);
    assert TokensOfLines(values) == [Sql.Open] + (Sql.PrintList(list) + ([Sql.Close] + rest));
    if |values| > 1 {
      assert rest[1..] == TokensOfLines(values[1..]);
      LinesParsed(values[1..]);
      var more := Tuples(TokensOfLines(values[1..])).value;
      assert AreLines(values, [list] + more);
    }
  }

  lemma NotNothing(v: SearchRow)
    ensures LineExprs(v) != []
  {}

  // ---- The main result ----

  /** The values of each search are read as a line of their own, under the names that the rest of the query uses. */
  lemma LinesMean(values: seq<SearchRow>)
    requires values != []
    ensures var read := ReadLines(BatchQuery.LinesPieces(values));
      && read.Some? && |read.value| == |values|
      && forall i | 0 <= i < |values| :: IsLineOf(values[i], read.value[i])
  {
    hide Sql.Lex, Tuples, BatchQuery.LinesPieces, LineExprs, Sql.Readable, Sql.Spell, Sql.TokensOf, IsLineOf;
    LinesItems(values);
    Sql.LexSpelled(ItemsOfLines(values));
    LinesParsed(values);
    forall i | 0 <= i < |values| ensures IsLineOf(values[i], LineExprs(values[i])) {
      LineNamed(values[i]);
    }
  }

  predicate IsLineOf(v: SearchRow, line: seq<Sql.Expr>) {
    && |line| == |Alias().args|
    && Under(Alias().args, line, "record_id") == Some(Sql.Fixed(OfText(v.recordId)))
    && Under(Alias().args, line, "search_type") == Some(Sql.Fixed(OfText(v.searchType)))
    && Under(Alias().args, line, "params") == Some(Sql.Cast(Sql.Fixed(OfJson(v.params)), "jsonb"))
  }

  lemma LineNamed(v: SearchRow)
    ensures IsLineOf(v, LineExprs(v))
  {
    assert "record_id"[0] == 'r' && "search_type"[0] == 's' && "params"[0] == 'p';
    UnderThree(Alias().args, LineExprs(v), "record_id", "search_type", "params");
  }

  lemma UnderThree(names: seq<Sql.Expr>, line: seq<Sql.Expr>, a: string, b: string, c: string)
    requires names == [Sql.Name([a]), Sql.Name([b]), Sql.Name([c])] && |line| == 3
    requires a != b && b != c && a != c
    ensures Under(names, line, a) == Some(line[0])
    ensures Under(names, line, b) == Some(line[1])
    ensures Under(names, line, c) == Some(line[2])
  {
    assert [a][0] != [b][0] && [b][0] != [c][0] && [a][0] != [c][0];
    UnderStep(names, line, b);
    UnderStep(names, line, c);
    UnderStep(names[1..], line[1..], c);
  }

  lemma UnderStep(names: seq<Sql.Expr>, line: seq<Sql.Expr>, name: string)
    requires |names| == |line| > 0 && names[0] != Sql.Name([name])
    ensures Under(names, line, name) == Under(names[1..], line[1..], name)
  {}
}

/** The other parts of a query's text, read as the database reads them: WHERE atoms, the ordering, columns, search rows. */
module QueryTexts {
  import opened Collections
  import opened Filters
  import opened Binding
  import Rendering
  import FilterText
  import BatchQuery
  import Columns
  import Sql
  import opened SqlMeaning
  import opened LeafTexts

  // ---- The atoms of the WHERE clause ----

  lemma SearchTypeWord()
    ensures Sql.IsWord("search_type") && !Sql.IsKeyword("search_type")
  {
    LowerIsNoKeyword("search_type");
  }

  function SearchTypeCond(name: string): Sql.Cond {
    Sql.Compare(Sql.IsEqual, Sql.Name(["sp", "search_type"]), Sql.Text(name))
  }

  lemma SearchTypeTexts(name: string)
    ensures ("sp" + ("." + "search_type")) + (" = " + ("'" + (name + "'"))) == "sp.search_type = '" + (name + "'")
  {
    assert ("sp" + ("." + "search_type")) + (" = " + "'") == "sp.search_type = '";
    assert ("sp" + ("." + "search_type")) + (" = " + ("'" + (name + "'"))) ==
      (("sp" + ("." + "search_type")) + (" = " + "'")) + (name + "'");
  }

  lemma SearchTypeWritten(name: string)
    requires Sql.Lacks(name, '\'')
    ensures Sql.CondNamed(SearchTypeCond(name)) && Sql.CondWordy(SearchTypeCond(name))
    ensures Sql.Written(Sql.PrintCond(SearchTypeCond(name))) == Letters("sp.search_type = '" + (name + "'"))
  {
    CommonWords();
    SearchTypeWord();
    NotKeywords();
    hide Sql.Written, Letters, Sql.IsWord, Sql.IsKeyword, Sql.Lacks;
    var path, text := Sql.Name(["sp", "search_type"]), Sql.Text(name);
    assert ["sp", "search_type"][1..] == ["search_type"];
    Sql.TextsAlike(path);
    Sql.TextsAlike(text);
    assert Sql.ExprText(path) == "sp" + ("." + "search_type") && Sql.ExprText(text) == "'" + (name + "'");
    assert Fine(path) && Fine(text);
    TextWritten(path);
    TextWritten(text);
    Sql.SignsWritten();
    Sql.WrittenJoin([Sql.Equals], " = ", Sql.PrintExpr(text), Sql.ExprText(text));
    Sql.WrittenJoin(Sql.PrintExpr(path), Sql.ExprText(path), [Sql.Equals] + Sql.PrintExpr(text), " = " + Sql.ExprText(text));
    SearchTypeTexts(name);
  }

  lemma SearchTypeText(name: string)
    requires Sql.Lacks(name, '\'')
    ensures Sql.ReadCond(Letters("sp.search_type = '" + (name + "'"))) == Some(SearchTypeCond(name))
  {
    hide Sql.Written, Sql.ReadCond, SearchTypeCond;
    SearchTypeWritten(name);
    Sql.CondReads(SearchTypeCond(name));
  }

  lemma SearchTypeMeans(db: Predicates, name: string, row: Joined)
    ensures EvalCond(db, SearchTypeCond(name), row) == Some(TypeIs(row, name))
  {
    assert EvalExpr(db, Sql.Name(["sp", "search_type"]), row) == NameValue(["sp", "search_type"], row);
    assert EvalExpr(db, Sql.Text(name), row) == Chars(name);
  }

  function OneIsOneCond(): Sql.Cond {
    Sql.Compare(Sql.IsEqual, Sql.Name(["1"]), Sql.Name(["1"]))
  }

  const ONE_IS_ONE: seq<Sql.Item> := [Sql.Tok(Sql.Word("1")), Sql.Tok(Sql.Equals), Sql.Tok(Sql.Word("1"))]

  /** This text is written without blanks. */
  lemma OneIsOneItems()
    ensures Sql.Spell(ONE_IS_ONE) == Letters("1=1") && Sql.Readable(ONE_IS_ONE)
    ensures Sql.TokensOf(ONE_IS_ONE) == Sql.PrintCond(OneIsOneCond())
  {
    var one, items := Sql.Tok(Sql.Word("1")), ONE_IS_ONE;
    assert items[1..] == [Sql.Tok(Sql.Equals), one] && items[1..][1..] == [one] && [one][1..] == [];
    assert Letters("1") == [Letter('1')] by { assert Letters("") == []; }
    assert Sql.SpelledItem(one) == [Letter('1')] && Sql.SpelledItem(Sql.Tok(Sql.Equals)) == [Letter('=')];
    assert Sql.Spell([]) == [] && Sql.Spell([one]) == [Letter('1')];
    assert Sql.Spell(items[1..]) == [Letter('='), Letter('1')];
    assert Sql.Spell(items) == [Letter('1'), Letter('='), Letter('1')];
    assert "1=1"[1..] == "=1" && "=1"[1..] == "1";
    assert Letters("=1") == [Letter('='), Letter('1')] && Letters("1=1") == [Letter('1')] + Letters("=1");
    assert Sql.TokensOf([one]) == [Sql.Word("1")] by { assert Sql.TokensOf([]) == []; }
    assert Sql.TokensOf(items[1..]) == [Sql.Equals, Sql.Word("1")];
    assert Sql.TokensOf(items) == [Sql.Word("1"), Sql.Equals, Sql.Word("1")];
    OneWord();
    assert Sql.Readable([]) && Sql.Readable([one]) && Sql.Readable(items[1..]) && Sql.Readable(items);
    assert Sql.PrintExpr(Sql.Name(["1"])) == [Sql.Word("1")];
    assert Sql.PrintCond(OneIsOneCond()) == [Sql.Word("1")] + ([Sql.Equals] + [Sql.Word("1")]);
  }

  lemma OneIsOneText()
    ensures Sql.ReadCond(Letters("1=1")) == Some(OneIsOneCond())
  {
    OneIsOneItems();
    hide Sql.Lex, Sql.ParseCond, Sql.PrintCond, Sql.Readable, Letters;
    Sql.LexSpelled(ONE_IS_ONE);
    Sql.CondParses(OneIsOneCond(), []);
    assert Sql.PrintCond(OneIsOneCond()) + [] == Sql.PrintCond(OneIsOneCond());
  }

  lemma OneWord()
    ensures Sql.IsWord("1")
  {}

  lemma OneIsOneMeans(db: Predicates, row: Joined)
    ensures EvalCond(db, OneIsOneCond(), row) == Some(True)
  {
    assert EvalExpr(db, Sql.Name(["1"]), row) == NameValue(["1"], row);
  }

  /** Every atom of the WHERE clause, with its values in place, is read as what the tree of the clause takes it for. */
  lemma AtomTextMeans(db: Predicates, t: Rendering.Token, row: Joined)
    requires Rendering.IsOperand(t) && FilterText.Proper(t) && (t.SearchTypeIs? ==> Sql.Lacks(t.name, '\''))
    ensures ConditionOfText(db, FilterText.TokenPieces(t), row) == Some(Rendering.EvalTree(db, Rendering.Atom(t), row))
  {
    hide Sql.ReadCond, LeafPieces, LeafText;
    match t
    case Leaf(f) =>
      LeafBinds(f);
      LeafTextMeans(db, f, row);
    case SearchTypeIs(name) =>
      SearchTypeText(name);
      SearchTypeMeans(db, name, row);
    case OneIsOne =>
      OneIsOneText();
      OneIsOneMeans(db, row);
  }

  // ---- The ordering ----

  function CentrePoint(ra: real, dec: real): Sql.Expr {
    PointAt(Sql.Fixed(OfReal(ra)), Sql.Fixed(OfReal(dec)))
  }

  function DistanceExpr(ra: real, dec: real): Sql.Expr {
    Sql.Apply("ST_Distance", [CentrePoint(ra, dec), ObjectPoint(), Sql.Name(["false"])])
  }

  function OrderExprs(ra: real, dec: real): seq<Sql.Expr> {
    [DistanceExpr(ra, dec), Sql.Name(["pgc"])]
  }

  lemma CentreWritten(ra: real, dec: real)
    ensures Sql.Named(CentrePoint(ra, dec)) && Sql.Wordy(CentrePoint(ra, dec))
    ensures Sql.Written(Sql.PrintExpr(CentrePoint(ra, dec))) ==
      Letters("ST_MakePoint(") + (([Hole(OfReal(ra))] + (Letters(", ") + [Hole(OfReal(dec))])) + Letters(")::geography"))
  {
    FunctionWords();
    LongWords();
    NotKeywords();
    hide Sql.Written, Letters, Sql.IsWord, Sql.IsKeyword;
    var x, y := Sql.Fixed(OfReal(ra)), Sql.Fixed(OfReal(dec));
    var call := Sql.Apply("ST_MakePoint", [x, y]);
    FixedWritten(OfReal(ra));
    FixedWritten(OfReal(dec));
    forall e | e in [x, y] ensures Sql.Named(e) && Sql.Wordy(e) {
      assert e == x || e == y;
    }
    assert Sql.Named(call) && Sql.Wordy(call);
    var inner := [Hole(OfReal(ra))] + (Letters(", ") + [Hole(OfReal(dec))]);
    assert Sql.PrintList([y]) == Sql.PrintExpr(y);
    ListOn(x, [y], [Hole(OfReal(ra))], [Hole(OfReal(dec))]);
    assert [x] + [y] == [x, y];
    CallWritten("ST_MakePoint", Sql.PrintList([x, y]), inner);
    Sql.PrintsAlike(call);
    Sql.WordWritten("geography");
    Sql.SignsWritten();
    Sql.WrittenJoin([Sql.CastSign], "::", [Sql.Word("geography")], "geography");
    assert [Sql.CastSign] + [Sql.Word("geography")] == [Sql.CastSign, Sql.Word("geography")];
    Sql.WrittenAppend(Sql.PrintCast(call), [Sql.CastSign, Sql.Word("geography")]);
    CentreTexts();
    Sql.LettersAppend(")", "::geography");
    PieceGroup(Letters("ST_MakePoint("), inner, Letters(")"), Letters("::geography"));
  }

  lemma CentreTexts()
    ensures "ST_MakePoint" + "(" == "ST_MakePoint(" && "::" + "geography" == "::geography"
    ensures ")" + "::geography" == ")::geography"
  {}

  lemma PieceGroup<T>(a: seq<T>, b: seq<T>, c: seq<T>, d: seq<T>)
    ensures (a + (b + c)) + d == a + (b + (c + d))
  {}

  lemma ObjectPointText()
    ensures Fine(ObjectPoint())
    ensures Sql.ExprText(ObjectPoint()) ==
      "ST_MakePoint(" + ("layer2.icrs.ra" + (", " + ("layer2.icrs.dec" + ")::geography")))
  {
    CommonWords();
    NotKeywords();
    hide Sql.IsWord, Sql.IsKeyword, PointAt;
    NameFine("icrs", "ra");
    NameFine("icrs", "dec");
    PointFine(Sql.Name(["layer2", "icrs", "ra"]), Sql.Name(["layer2", "icrs", "dec"]));
    ObjectTexts();
  }

  lemma DistanceWritten(ra: real, dec: real)
    ensures Sql.Named(DistanceExpr(ra, dec)) && Sql.Wordy(DistanceExpr(ra, dec))
    ensures Sql.Written(Sql.PrintExpr(DistanceExpr(ra, dec))) ==
      Letters("ST_Distance" + "(") + ((Sql.Written(Sql.PrintExpr(CentrePoint(ra, dec))) + (Letters(", ") +
        (Letters(Sql.ExprText(ObjectPoint())) + (Letters(", ") + Letters("false"))))) + Letters(")"))
  {
    CommonWords();
    FunctionWords();
    NotKeywords();
    hide Sql.Written, Letters, Sql.IsWord, Sql.IsKeyword, PointAt;
    var a, b, flat := CentrePoint(ra, dec), ObjectPoint(), Sql.Name(["false"]);
    CentreWritten(ra, dec);
    ObjectPointText();
    Sql.TextsAlike(flat);
    assert Sql.ExprText(flat) == "false" && Fine(flat);
    TextWritten(b);
    TextWritten(flat);
    hide CentrePoint, ObjectPoint;
    forall e | e in [a, b, flat] ensures Sql.Named(e) && Sql.Wordy(e) {
      assert e == a || e == b || e == flat;
    }
    var call := DistanceExpr(ra, dec);
    assert Sql.Named(call) && Sql.Wordy(call);
    assert Sql.PrintList([flat]) == Sql.PrintExpr(flat);
    ListOn(b, [flat], Letters(Sql.ExprText(b)), Letters("false"));
    assert [b] + [flat] == [b, flat];
    ListOn(a, [b, flat], Sql.Written(Sql.PrintExpr(a)), Letters(Sql.ExprText(b)) + (Letters(", ") + Letters("false")));
    assert [a] + [b, flat] == [a, b, flat];
    CallWritten("ST_Distance", Sql.PrintList([a, b, flat]),
      Sql.Written(Sql.PrintExpr(a)) + (Letters(", ") + (Letters(Sql.ExprText(b)) + (Letters(", ") + Letters("false")))));
    Sql.PrintsAlike(call);
  }

  lemma OrderWordsWritten()
    ensures Sql.Written(Sql.ORDER_WORDS) == Letters("ORDER BY ")
  {
    OrderWord();
    ByWord();
    hide Sql.Written, Letters;
    Sql.WrittenJoin([Sql.Word("ORDER")], "ORDER ", [Sql.Word("BY")], "BY ");
    assert [Sql.Word("ORDER")] + [Sql.Word("BY")] == Sql.ORDER_WORDS;
    assert "ORDER " + "BY " == "ORDER BY ";
  }

  lemma OrderWord()
    ensures Sql.Written([Sql.Word("ORDER")]) == Letters("ORDER ")
  {
    LastGap("ORDER");
    assert "ORDER" + " " == "ORDER ";
  }

  lemma ByWord()
    ensures Sql.Written([Sql.Word("BY")]) == Letters("BY ")
  {
    LastGap("BY");
    assert "BY" + " " == "BY ";
  }

  lemma LastGap(name: string)
    requires !Sql.GapBefore(Sql.Word(name)) && Sql.GapAfter(Sql.Word(name))
    ensures Sql.Written([Sql.Word(name)]) == Letters(name + " ")
  {
    hide Sql.GapBefore, Sql.GapAfter, Sql.Written;
    Sql.WrittenOne(Sql.Word(name));
    BlankLetter();
    Sql.LettersAppend(name, " ");
    assert [] + (Letters(name) + [Letter(' ')]) == Letters(name) + [Letter(' ')];
  }

  lemma TailRegroup(close: string, comma: string, open: string, x: string, y: string, rest: string)
    ensures (close + comma) + ((open + (x + comma)) + (y + (close + (comma + rest)))) ==
      close + (comma + ((open + (x + (comma + (y + close)))) + (comma + rest)))
  {}

  lemma OrderTexts()
    ensures BatchQuery.ORDER_HEAD == "ORDER BY " + (("ST_Distance" + "(") + "ST_MakePoint(")
    ensures BatchQuery.ORDER_TAIL == ")::geography" + (", " + (("ST_MakePoint(" + ("layer2.icrs.ra" + (", " +
      ("layer2.icrs.dec" + ")::geography")))) + (", " + ("false" + (")" + (", " + "pgc"))))))
  {
    OrderHeadText();
    GeographyText();
    ThirdTexts();
    OrderTailText();
    TailRegroup(")::geography", ", ", "ST_MakePoint(", "layer2.icrs.ra", "layer2.icrs.dec",
      "false" + (")" + (", " + "pgc")));
  }

  lemma GeographyText()
    ensures ")::geography, " == ")::geography" + ", "
  {}

  lemma OrderHeadText()
    ensures BatchQuery.ORDER_HEAD == "ORDER BY " + (("ST_Distance" + "(") + "ST_MakePoint(")
  {}

  lemma OrderTailText()
    ensures "layer2.icrs.dec)::geography, false), pgc" ==
      "layer2.icrs.dec" + (")::geography" + (", " + ("false" + (")" + (", " + "pgc")))))
  {}

  lemma OrderRegroup<T>(order: seq<T>, call: seq<T>, open: seq<T>, x: seq<T>, comma: seq<T>, y: seq<T>, close: seq<T>,
                        target: seq<T>, flat: seq<T>, last: seq<T>, pgc: seq<T>)
    ensures order + ((call + (((open + ((x + (comma + y)) + close)) + (comma + (target + (comma + flat)))) + last)) +
        (comma + pgc)) ==
      (order + (call + open)) +
        (x + (comma + (y + (close + (comma + (target + (comma + (flat + (last + (comma + pgc)))))))))
        )
  {}

  lemma OrderTailLetters(target: string)
    requires BatchQuery.ORDER_TAIL == ")::geography" + (", " + (target + (", " + ("false" + (")" + (", " + "pgc"))))))
    ensures Letters(BatchQuery.ORDER_TAIL) ==
      Letters(")::geography") + (Letters(", ") + (Letters(target) + (Letters(", ") + (Letters("false") +
        (Letters(")") + (Letters(", ") + Letters("pgc")))))))
  {
    hide Letters;
    Sql.LettersAppend(")::geography", ", " + (target + (", " + ("false" + (")" + (", " + "pgc"))))));
    Sql.LettersAppend(", ", target + (", " + ("false" + (")" + (", " + "pgc")))));
    Sql.LettersAppend(target, ", " + ("false" + (")" + (", " + "pgc"))));
    Sql.LettersAppend(", ", "false" + (")" + (", " + "pgc")));
    Sql.LettersAppend("false", ")" + (", " + "pgc"));
    Sql.LettersAppend(")", ", " + "pgc");
    Sql.LettersAppend(", ", "pgc");
  }

  lemma OrderWritten(ra: real, dec: real)
    ensures Sql.Written(Sql.ORDER_WORDS + Sql.PrintList(OrderExprs(ra, dec))) ==
      BatchQuery.OrderPieces(Some(BatchQuery.DistanceTo(ra, dec)))
  {
    hide Sql.Written, Letters, Sql.IsWord, Sql.IsKeyword, DistanceExpr, CentrePoint, ObjectPoint;
    var d, p := DistanceExpr(ra, dec), Sql.Name(["pgc"]);
    CommonWords();
    NotKeywords();
    OrderWordsWritten();
    DistanceWritten(ra, dec);
    CentreWritten(ra, dec);
    ObjectPointText();
    Sql.TextsAlike(p);
    assert Sql.ExprText(p) == "pgc" && Fine(p);
    TextWritten(p);
    assert Sql.PrintList([p]) == Sql.PrintExpr(p);
    ListOn(d, [p], Sql.Written(Sql.PrintExpr(d)), Letters("pgc"));
    assert [d] + [p] == [d, p];
    Sql.WrittenAppend(Sql.ORDER_WORDS, Sql.PrintList(OrderExprs(ra, dec)));
    OrderTexts();
    OrderTailLetters(Sql.ExprText(ObjectPoint()));
    Sql.LettersAppend("ORDER BY ", ("ST_Distance" + "(") + "ST_MakePoint(");
    Sql.LettersAppend("ST_Distance" + "(", "ST_MakePoint(");
    OrderRegroup(Letters("ORDER BY "), Letters("ST_Distance" + "("), Letters("ST_MakePoint("), [Hole(OfReal(ra))],
      Letters(", "), [Hole(OfReal(dec))], Letters(")::geography"), Letters(Sql.ExprText(ObjectPoint())), Letters("false"),
      Letters(")"), Letters("pgc"));
  }

  /** The ordering with the centre in place is read as the distance of the object from the centre, then its number. */
  lemma OrderTextMeans(db: Predicates, ra: real, dec: real, row: Joined)
    ensures var ps := BatchQuery.OrderPieces(Some(BatchQuery.DistanceTo(ra, dec)));
      && Sql.ReadOrder(ps) == Some(OrderExprs(ra, dec))
      && EvalExpr(db, OrderExprs(ra, dec)[0], row) ==
           (var p := PositionIn(row); if p.None? then Datum.Null else Numeric(db.distance(ra, dec, p.value.0, p.value.1)))
      && EvalExpr(db, OrderExprs(ra, dec)[1], row) == Object(row.pgc)
  {
    hide Sql.ReadOrder, BatchQuery.OrderPieces;
    OrderWritten(ra, dec);
    OrderFine(ra, dec);
    Sql.OrderReads(OrderExprs(ra, dec));
    DistanceMeans(db, ra, dec, row);
    assert EvalExpr(db, Sql.Name(["pgc"]), row) == Object(row.pgc);
  }

  lemma OrderFine(ra: real, dec: real)
    ensures Sql.AllNamed(OrderExprs(ra, dec)) && Sql.AllWordy(OrderExprs(ra, dec))
  {
    hide DistanceExpr, Sql.IsWord;
    DistanceWritten(ra, dec);
    CommonWords();
    var d, p := DistanceExpr(ra, dec), Sql.Name(["pgc"]);
    forall e | e in OrderExprs(ra, dec) ensures Sql.Named(e) && Sql.Wordy(e) {
      assert e == d || e == p;
    }
  }

  lemma DistanceMeans(db: Predicates, ra: real, dec: real, row: Joined)
    ensures EvalExpr(db, DistanceExpr(ra, dec), row) ==
      (var p := PositionIn(row); if p.None? then Datum.Null else Numeric(db.distance(ra, dec, p.value.0, p.value.1)))
  {
    var x, y, flat := Sql.Fixed(OfReal(ra)), Sql.Fixed(OfReal(dec)), Sql.Name(["false"]);
    assert EvalExpr(db, x, row) == Numeric(ra) && EvalExpr(db, y, row) == Numeric(dec);
    PointValue(db, x, y, row);
    ObjectPointValue(db, row);
    hide ObjectPoint, PointAt;
    EvalThree(db, CentrePoint(ra, dec), ObjectPoint(), flat, row);
    var ds := EvalList(db, [CentrePoint(ra, dec), ObjectPoint(), flat], row);
    assert ds[2] == Flag(false);
    assert AnyNull(ds) <==> ds[1].Null?;
    assert EvalExpr(db, DistanceExpr(ra, dec), row) == CallOf(db, "ST_Distance", ds);
  }

  // ---- The page ----

  lemma PageWritten(limit: int, offset: int)
    ensures Sql.Written([Sql.Word("LIMIT"), Sql.Given(OfInt(limit)), Sql.Word("OFFSET"), Sql.Given(OfInt(offset))]) ==
      BatchQuery.PagePieces(limit, offset)
  {
    LimitWord();
    OffsetWord();
    hide Sql.Written, Letters;
    GivenWritten(OfInt(limit));
    GivenWritten(OfInt(offset));
    var a, b := [Sql.Word("LIMIT"), Sql.Given(OfInt(limit))], [Sql.Word("OFFSET"), Sql.Given(OfInt(offset))];
    Sql.WrittenAppend([Sql.Word("LIMIT")], [Sql.Given(OfInt(limit))]);
    Sql.WrittenAppend([Sql.Word("OFFSET")], [Sql.Given(OfInt(offset))]);
    assert [Sql.Word("LIMIT")] + [Sql.Given(OfInt(limit))] == a && [Sql.Word("OFFSET")] + [Sql.Given(OfInt(offset))] == b;
    Sql.WrittenAppend(a, b);
    assert a + b == [Sql.Word("LIMIT"), Sql.Given(OfInt(limit)), Sql.Word("OFFSET"), Sql.Given(OfInt(offset))];
    PieceGroup(Letters(" LIMIT "), [Hole(OfInt(limit))], [], Letters(" OFFSET ") + [Hole(OfInt(offset))]);
    assert [Hole(OfInt(limit))] + [] == [Hole(OfInt(limit))];
    assert [] + (Letters(" OFFSET ") + [Hole(OfInt(offset))]) == Letters(" OFFSET ") + [Hole(OfInt(offset))];
  }

  lemma GivenWritten(v: Value)
    ensures Sql.Written([Sql.Given(v)]) == [Hole(v)]
  {
    Sql.WrittenOne(Sql.Given(v));
    assert [] + ([Hole(v)] + []) == [Hole(v)];
  }

  lemma LimitWord()
    ensures Sql.Written([Sql.Word("LIMIT")]) == Letters(" LIMIT ")
  {
    BothGaps("LIMIT");
    assert " " + ("LIMIT" + " ") == " LIMIT ";
  }

  lemma OffsetWord()
    ensures Sql.Written([Sql.Word("OFFSET")]) == Letters(" OFFSET ")
  {
    BothGaps("OFFSET");
    assert " " + ("OFFSET" + " ") == " OFFSET ";
  }

  /** The end of the query is read as the limit and the offset that were asked for. */
  lemma PageMeans(limit: int, offset: int)
    ensures Sql.ReadPage(BatchQuery.PagePieces(limit, offset)) == Some((OfInt(limit), OfInt(offset)))
  {
    hide Sql.ReadPage, BatchQuery.PagePieces;
    PageWritten(limit, offset);
    Sql.PageReads(OfInt(limit), OfInt(offset));
  }

  // ---- The columns ----

  /** The value of a cell that `_group_by_pgc` finds under a label. */
  function CellDatum(cell: Columns.Cell): Datum {
    match cell
    case Null => Datum.Null
    case Column(of, name) => ColumnOf(of, name)
    case Flag(value) => Flag(value)
  }

  function EvalSelected(db: Predicates, s: Sql.Selected, row: Joined): Datum {
    match s
    case Plain(value, _) => EvalExpr(db, value, row)
    case Whether(tested, yes, no, _) =>
      if EvalExpr(db, tested, row).Null? then EvalExpr(db, no, row) else EvalExpr(db, yes, row)
  }

  function SelectedOf(item: Columns.Item, table: string): Sql.Selected {
    match item
    case KeyItem(_, key, _) => Sql.Plain(Sql.Name(["layer2", table, key]), Columns.LabelOf(item))
    case PresentItem(_, _) =>
      Sql.Whether(Sql.Name(["layer2", table, "pgc"]), Sql.Name(["true"]), Sql.Name(["false"]), Columns.LabelOf(item))
  }

  /** A name that can be written as it stands. */
  predicate PlainWord(name: string) {
    Sql.IsWord(name) && !Sql.IsKeyword(name)
  }

  lemma AsWritten()
    ensures Sql.Written([Sql.Word("AS")]) == Letters(" AS ")
  {
    Sql.WrittenOne(Sql.Word("AS"));
    BlankLetter();
    Sql.LettersAppend(" ", "AS" + " ");
    Sql.LettersAppend("AS", " ");
    assert " " + ("AS" + " ") == " AS ";
  }

  predicate ItemIsRead(item: Columns.Item, table: string) {
    var ts := Sql.PrintSelected(SelectedOf(item, table));
    && Sql.Legible(ts) && Sql.Written(ts) == Letters(Columns.ItemText(item))
    && Sql.ParseSelected(ts) == Some(SelectedOf(item, table))
    && Sql.ReadSelected(Sql.Written(ts)) == Some(SelectedOf(item, table))
  }

  lemma KeyItemText(item: Columns.Item, table: string)
    requires item.KeyItem? && item.table == "layer2." + table && PlainWord(table) && PlainWord(item.key)
    requires Sql.Lacks(Columns.LabelOf(item), '"')
    ensures ItemIsRead(item, table)
  {
    hide Sql.Written, Letters, Sql.IsWord, Sql.IsKeyword, Sql.Lacks, Sql.ReadSelected, Sql.ParseSelected, Sql.Legible;
    var value, text := Sql.Name(["layer2", table, item.key]), Columns.LabelOf(item);
    var s := Sql.Plain(value, text);
    NameFine(table, item.key);
    TextWritten(value);
    AsWritten();
    Sql.QuotedWritten(text);
    Sql.WrittenJoin([Sql.Word("AS")], " AS ", [Sql.Label(text)], "\"" + (text + "\""));
    assert [Sql.Word("AS")] + [Sql.Label(text)] == [Sql.Word("AS"), Sql.Label(text)];
    Sql.WrittenJoin(Sql.PrintExpr(value), Sql.ExprText(value), [Sql.Word("AS"), Sql.Label(text)],
      " AS " + ("\"" + (text + "\"")));
    KeyTexts(table, item.key, item.catalog);
    FirstIsLayer2(table, item.key);
    Sql.PlainReads(s);
  }

  lemma FirstIsLayer2(table: string, column: string)
    ensures var ts := Sql.PrintExpr(Sql.Name(["layer2", table, column]));
      ts != [] && ts[0] == Sql.Word("layer2") && ts[0] != Sql.Word("CASE")
  {
    Sql.PrintsAlike(Sql.Name(["layer2", table, column]));
    assert "layer2"[0] == 'l' && "CASE"[0] == 'C';
  }

  lemma KeyTexts(table: string, key: string, catalog: string)
    ensures ("layer2." + (table + ("." + key))) + (" AS " + ("\"" + ((catalog + "|" + key) + "\""))) ==
      ("layer2." + table) + ("." + (key + (" AS \"" + (catalog + ("|" + (key + "\""))))))
  {
    assert " AS " + "\"" == " AS \"";
    KeyRegroup("layer2.", table, ".", key, " AS ", "\"", catalog, "|");
  }

  lemma KeyRegroup(a: string, table: string, dot: string, key: string, word: string, quote: string, catalog: string,
                   bar: string)
    ensures (a + (table + (dot + key))) + (word + (quote + ((catalog + bar + key) + quote))) ==
      (a + table) + (dot + (key + ((word + quote) + (catalog + (bar + (key + quote))))))
  {}

  lemma BooleansFine()
    ensures Fine(Sql.Name(["true"])) && Fine(Sql.Name(["false"]))
    ensures Sql.ExprText(Sql.Name(["true"])) == "true" && Sql.ExprText(Sql.Name(["false"])) == "false"
  {
    CommonWords();
    TrueWord();
    NotKeywords();
    hide Sql.IsWord, Sql.IsKeyword;
    Sql.TextsAlike(Sql.Name(["true"]));
    Sql.TextsAlike(Sql.Name(["false"]));
  }

  lemma TrueWord()
    ensures Sql.IsWord("true") && !Sql.IsKeyword("true")
  {
    LowerIsNoKeyword("true");
  }

  lemma CaseWordsWritten()
    ensures Sql.Written(Sql.WHEN_WORDS) == Letters("CASE WHEN ")
  {
    CaseWord();
    WhenWord();
    hide Sql.Written, Letters;
    Sql.WrittenJoin([Sql.Word("CASE")], "CASE ", [Sql.Word("WHEN")], "WHEN ");
    assert [Sql.Word("CASE")] + [Sql.Word("WHEN")] == Sql.WHEN_WORDS;
    assert "CASE " + "WHEN " == "CASE WHEN ";
  }

  lemma CaseWord()
    ensures Sql.Written([Sql.Word("CASE")]) == Letters("CASE ")
  {
    LastGap("CASE");
    assert "CASE" + " " == "CASE ";
  }

  lemma WhenWord()
    ensures Sql.Written([Sql.Word("WHEN")]) == Letters("WHEN ")
  {
    LastGap("WHEN");
    assert "WHEN" + " " == "WHEN ";
  }

  lemma FirstGap(name: string)
    requires Sql.GapBefore(Sql.Word(name)) && !Sql.GapAfter(Sql.Word(name))
    ensures Sql.Written([Sql.Word(name)]) == Letters(" " + name)
  {
    hide Sql.GapBefore, Sql.GapAfter, Sql.Written;
    Sql.WrittenOne(Sql.Word(name));
    BlankLetter();
    Sql.LettersAppend(" ", name);
    assert [Letter(' ')] + (Letters(name) + []) == [Letter(' ')] + Letters(name);
  }

  lemma BothGaps(name: string)
    requires Sql.GapBefore(Sql.Word(name)) && Sql.GapAfter(Sql.Word(name))
    ensures Sql.Written([Sql.Word(name)]) == Letters(" " + (name + " "))
  {
    hide Sql.GapBefore, Sql.GapAfter, Sql.Written;
    Sql.WrittenOne(Sql.Word(name));
    BlankLetter();
    Sql.LettersAppend(name, " ");
    Sql.LettersAppend(" ", name + " ");
  }

  lemma ThenWordsWritten()
    ensures Sql.Written(Sql.THEN_WORDS) == Letters(" IS NOT NULL THEN ")
  {
    IsNotWritten();
    NullThenWritten();
    hide Sql.Written, Letters;
    var first, second := [Sql.Word("IS"), Sql.Word("NOT")], [Sql.Word("NULL"), Sql.Word("THEN")];
    Sql.WrittenJoin(first, " IS NOT", second, " NULL THEN ");
    assert first + second == Sql.THEN_WORDS;
    assert " IS NOT" + " NULL THEN " == " IS NOT NULL THEN ";
  }

  lemma IsNotWritten()
    ensures Sql.Written([Sql.Word("IS"), Sql.Word("NOT")]) == Letters(" IS NOT")
  {
    IsWritten();
    NotWritten();
    IsNotText();
    hide Sql.Written, Letters;
    Sql.WrittenJoin([Sql.Word("IS")], " " + "IS", [Sql.Word("NOT")], " " + "NOT");
    assert [Sql.Word("IS")] + [Sql.Word("NOT")] == [Sql.Word("IS"), Sql.Word("NOT")];
  }

  lemma IsWritten()
    ensures Sql.Written([Sql.Word("IS")]) == Letters(" " + "IS")
  {
    FirstGap("IS");
  }

  lemma NotWritten()
    ensures Sql.Written([Sql.Word("NOT")]) == Letters(" " + "NOT")
  {
    FirstGap("NOT");
  }

  lemma IsNotText()
    ensures (" " + "IS") + (" " + "NOT") == " IS NOT"
  {}

  lemma NullThenWritten()
    ensures Sql.Written([Sql.Word("NULL"), Sql.Word("THEN")]) == Letters(" NULL THEN ")
  {
    NullWritten();
    ThenWritten();
    NullThenText();
    hide Sql.Written, Letters;
    Sql.WrittenJoin([Sql.Word("NULL")], " " + "NULL", [Sql.Word("THEN")], " " + ("THEN" + " "));
    assert [Sql.Word("NULL")] + [Sql.Word("THEN")] == [Sql.Word("NULL"), Sql.Word("THEN")];
  }

  lemma NullWritten()
    ensures Sql.Written([Sql.Word("NULL")]) == Letters(" " + "NULL")
  {
    FirstGap("NULL");
  }

  lemma ThenWritten()
    ensures Sql.Written([Sql.Word("THEN")]) == Letters(" " + ("THEN" + " "))
  {
    BothGaps("THEN");
  }

  lemma NullThenText()
    ensures (" " + "NULL") + (" " + ("THEN" + " ")) == " NULL THEN "
  {}

  lemma ElseWordsWritten()
    ensures Sql.Written(Sql.ELSE_WORDS) == Letters(" ELSE ")
  {
    BothGaps("ELSE");
    assert " " + ("ELSE" + " ") == " ELSE ";
  }

  lemma EndWordsWritten()
    ensures Sql.Written(Sql.END_WORDS) == Letters(" END AS ")
  {
    EndWritten();
    AsWritten();
    EndText();
    hide Sql.Written, Letters;
    Sql.WrittenJoin([Sql.Word("END")], " " + "END", [Sql.Word("AS")], " AS ");
    assert [Sql.Word("END")] + [Sql.Word("AS")] == Sql.END_WORDS;
  }

  lemma EndWritten()
    ensures Sql.Written([Sql.Word("END")]) == Letters(" " + "END")
  {
    FirstGap("END");
  }

  lemma EndText()
    ensures (" " + "END") + " AS " == " END AS "
  {}

  lemma PresentItemText(item: Columns.Item, table: string)
    requires item.PresentItem? && item.table == "layer2." + table && PlainWord(table)
    requires Sql.Lacks(Columns.LabelOf(item), '"')
    ensures ItemIsRead(item, table)
  {
    hide Sql.Written, Letters, Sql.IsWord, Sql.IsKeyword, Sql.Lacks, Sql.ReadSelected, Sql.ParseSelected, Sql.Legible;
    var tested, yes, no := Sql.Name(["layer2", table, "pgc"]), Sql.Name(["true"]), Sql.Name(["false"]);
    var text := Columns.LabelOf(item);
    CommonWords();
    NotKeywords();
    NameFine(table, "pgc");
    BooleansFine();
    TextWritten(tested);
    TextWritten(yes);
    TextWritten(no);
    CaseWordsWritten();
    ThenWordsWritten();
    ElseWordsWritten();
    EndWordsWritten();
    Sql.QuotedWritten(text);
    var last, lastText := Sql.END_WORDS + [Sql.Label(text)], " END AS " + ("\"" + (text + "\""));
    Sql.WrittenJoin(Sql.END_WORDS, " END AS ", [Sql.Label(text)], "\"" + (text + "\""));
    Sql.WrittenJoin(Sql.PrintExpr(no), "false", last, lastText);
    Sql.WrittenJoin(Sql.ELSE_WORDS, " ELSE ", Sql.PrintExpr(no) + last, "false" + lastText);
    var third, thirdText := Sql.ELSE_WORDS + (Sql.PrintExpr(no) + last), " ELSE " + ("false" + lastText);
    Sql.WrittenJoin(Sql.PrintExpr(yes), "true", third, thirdText);
    Sql.WrittenJoin(Sql.THEN_WORDS, " IS NOT NULL THEN ", Sql.PrintExpr(yes) + third, "true" + thirdText);
    var second, secondText := Sql.THEN_WORDS + (Sql.PrintExpr(yes) + third), " IS NOT NULL THEN " + ("true" + thirdText);
    Sql.WrittenJoin(Sql.PrintExpr(tested), Sql.ExprText(tested), second, secondText);
    Sql.WrittenJoin(Sql.WHEN_WORDS, "CASE WHEN ", Sql.PrintExpr(tested) + second, Sql.ExprText(tested) + secondText);
    PresenceTexts(table, item.catalog);
    Sql.WhetherReads(SelectedOf(item, table));
  }

  lemma PresenceTexts(table: string, catalog: string)
    ensures "CASE WHEN " + (("layer2." + (table + ("." + "pgc"))) + (" IS NOT NULL THEN " + ("true" + (" ELSE " + ("false" +
        (" END AS " + ("\"" + ((catalog + "|" + "_present") + "\"")))))))) ==
      "CASE WHEN " + (("layer2." + table) + (BatchQuery.PRESENT + (catalog + "|_present\"")))
  {
    PresentText();
    assert "|_present\"" == "|" + ("_present" + "\"");
    PresenceRegroup("layer2.", table, "." + "pgc", " IS NOT NULL THEN ", "true", " ELSE ", "false", " END AS ", "\"",
      catalog, "|", "_present");
  }

  lemma PresentText()
    ensures BatchQuery.PRESENT ==
      ("." + "pgc") + (" IS NOT NULL THEN " + ("true" + (" ELSE " + ("false" + (" END AS " + "\"")))))
  {
    PresentHead();
    PresentTail();
    assert " ELSE " == " " + "ELSE ";
  }

  lemma PresentHead()
    ensures ".pgc IS NOT NULL THEN true " == ("." + "pgc") + (" IS NOT NULL THEN " + ("true" + " "))
  {}

  lemma PresentTail()
    ensures "ELSE false END AS \"" == "ELSE " + ("false" + (" END AS " + "\""))
  {}

  lemma PresenceRegroup(a: string, table: string, column: string, thenText: string, yes: string, elseText: string,
                        no: string, endText: string, quote: string, catalog: string, bar: string, key: string)
    ensures (a + (table + column)) +
        (thenText + (yes + (elseText + (no + (endText + (quote + ((catalog + bar + key) + quote))))))) ==
      (a + table) +
        ((column + (thenText + (yes + (elseText + (no + (endText + quote)))))) + (catalog + (bar + (key + quote))))
  {}

  /** A column of the query is read as the cell that is later looked up under its label. */
  lemma ItemTextMeans(db: Predicates, item: Columns.Item, table: string, row: Joined)
    requires item.table == "layer2." + table && PlainWord(table) && Sql.Lacks(Columns.LabelOf(item), '"')
    requires item.KeyItem? ==> PlainWord(item.key) && item.key != "pgc"
    ensures var s := SelectedOf(item, table);
      && Sql.ReadSelected(Letters(Columns.ItemText(item))) == Some(s)
      && s.text == Columns.LabelOf(item)
      && EvalSelected(db, s, row) == CellDatum(Columns.CellOf(item, row))
  {
    hide Sql.ReadSelected, Sql.Legible, Sql.Written, Sql.ParseSelected, Letters, Columns.ItemText, EvalExpr,
      Sql.Lacks, PlainWord;
    if item.KeyItem? {
      KeyItemText(item, table);
      PathValue(table, item.key, row);
      NameMeans(db, ["layer2", table, item.key], row);
    } else {
      PresentItemText(item, table);
      PathValue(table, "pgc", row);
      NameMeans(db, ["layer2", table, "pgc"], row);
      BooleanValues(db, row);
    }
  }

  lemma NameMeans(db: Predicates, path: seq<string>, row: Joined)
    ensures EvalExpr(db, Sql.Name(path), row) == NameValue(path, row)
  {}

  lemma BooleanValues(db: Predicates, row: Joined)
    ensures EvalExpr(db, Sql.Name(["true"]), row) == Flag(true) && EvalExpr(db, Sql.Name(["false"]), row) == Flag(false)
  {}

  // ---- The searches ----

  /** `AS t(record_id, search_type, params)`: the names of the values of a line. */
  function Alias(): Sql.Expr {
    Sql.Apply("t", [Sql.Name(["record_id"]), Sql.Name(["search_type"]), Sql.Name(["params"])])
  }

  lemma AliasText()
    ensures BatchQuery.AFTER_VALUES == ") AS " + (Sql.ExprText(Alias()) + ") SELECT sp.record_id, pgc, ")
  {
    var a, b, c := Sql.Name(["record_id"]), Sql.Name(["search_type"]), Sql.Name(["params"]);
    Sql.TextsAlike(Alias());
    Sql.TextsAlike(a);
    Sql.TextsAlike(b);
    Sql.TextsAlike(c);
    assert [a, b, c][1..] == [b, c] && [b, c][1..] == [c];
    assert Sql.ListText([c]) == "params" && Sql.ListText([b, c]) == "search_type" + (", " + "params");
    assert Sql.ListText([a, b, c]) == "record_id" + (", " + ("search_type" + (", " + "params")));
    assert Sql.ExprText(Alias()) == "t" + ("(" + (("record_id" + (", " + ("search_type" + (", " + "params")))) + ")"));
    AliasTexts();
  }

  lemma AliasTexts()
    ensures ") AS " + (("t" + ("(" + (("record_id" + (", " + ("search_type" + (", " + "params")))) + ")"))) +
        ") SELECT sp.record_id, pgc, ") ==
      BatchQuery.AFTER_VALUES
  {
    AliasHead();
    AliasMiddle();
    AliasTail();
    AliasRegroup(") AS ", "t", "(", "record_id", ", ", "search_type", "params", ")", ") ", "SELECT sp.record_id, pgc, ");
  }

  lemma AliasHead()
    ensures ") AS t(record_id, " == ") AS " + ("t" + ("(" + ("record_id" + ", ")))
  {}

  lemma AliasMiddle()
    ensures "search_type, params)) " == "search_type" + (", " + ("params" + (")" + ") ")))
  {}

  lemma AliasTail()
    ensures ") SELECT sp.record_id, pgc, " == ") " + "SELECT sp.record_id, pgc, "
  {}

  lemma AliasRegroup(a: string, t: string, open: string, x: string, comma: string, y: string, z: string, close: string,
                     end: string, rest: string)
    ensures a + ((t + (open + ((x + (comma + (y + (comma + z)))) + close))) + (end + rest)) ==
      (a + (t + (open + (x + comma)))) + (y + (comma + (z + (close + end)))) + rest
  {}
}

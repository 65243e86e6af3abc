/** The text of every filter, with its values bound, is read by the database as what the filter means. */
module LeafTexts {
  import opened Collections
  import opened Filters
  import opened Binding
  import Sql
  import opened SqlMeaning

  // ---- Words ----

  lemma CommonWords()
    ensures Sql.IsWord("pgc") && Sql.IsWord("sp") && Sql.IsWord("params") && Sql.IsWord("layer2") && Sql.IsWord("icrs")
    ensures Sql.IsWord("ra") && Sql.IsWord("dec") && Sql.IsWord("design") && Sql.IsWord("false") && Sql.IsWord("float")
  {}

  lemma LongWords()
    ensures Sql.IsWord("designation") && Sql.IsWord("designations") && Sql.IsWord("geography") && Sql.IsWord("CONCAT")
  {}

  lemma FunctionWords()
    ensures Sql.IsWord("ST_MakePoint") && Sql.IsWord("ST_DWithin") && Sql.IsWord("ST_Distance")
  {}

  lemma LevenshteinWord()
    ensures Sql.IsWord("levenshtein_less_equal")
  {
    var name := "levenshtein_less_equal";
    assert name == "levenshtein" + "_less_equal";
    assert Sql.IsWord("levenshtein") && Sql.IsWord("_less_equal");
  }

  lemma NotKeywords()
    ensures !Sql.IsKeyword("pgc") && !Sql.IsKeyword("sp") && !Sql.IsKeyword("params") && !Sql.IsKeyword("layer2")
    ensures !Sql.IsKeyword("icrs") && !Sql.IsKeyword("ra") && !Sql.IsKeyword("dec") && !Sql.IsKeyword("design")
    ensures !Sql.IsKeyword("false") && !Sql.IsKeyword("float") && !Sql.IsKeyword("designation")
    ensures !Sql.IsKeyword("designations") && !Sql.IsKeyword("geography") && !Sql.IsKeyword("CONCAT")
    ensures !Sql.IsKeyword("ST_MakePoint") && !Sql.IsKeyword("ST_DWithin") && !Sql.IsKeyword("ST_Distance")
    ensures !Sql.IsKeyword("levenshtein_less_equal")
  {
    hide Sql.IsKeyword;
    LowerIsNoKeyword("pgc");
    LowerIsNoKeyword("sp");
    LowerIsNoKeyword("params");
    LowerIsNoKeyword("layer2");
    LowerIsNoKeyword("icrs");
    LowerIsNoKeyword("ra");
    LowerIsNoKeyword("dec");
    LowerIsNoKeyword("design");
    LowerIsNoKeyword("false");
    LowerIsNoKeyword("float");
    LowerIsNoKeyword("designation");
    LowerIsNoKeyword("designations");
    LowerIsNoKeyword("geography");
    LowerIsNoKeyword("levenshtein_less_equal");
    CapitalsNoKeywords();
  }

  lemma LowerIsNoKeyword(name: string)
    requires name != "" && 'a' <= name[0] <= 'z'
    ensures !Sql.IsKeyword(name)
  {}

  lemma CapitalsNoKeywords()
    ensures !Sql.IsKeyword("CONCAT") && !Sql.IsKeyword("ST_MakePoint")
    ensures !Sql.IsKeyword("ST_DWithin") && !Sql.IsKeyword("ST_Distance")
  {}

  lemma KeysLackQuotes()
    ensures Sql.Lacks("ra", '\'') && Sql.Lacks("dec", '\'') && Sql.Lacks("design", '\'') && Sql.Lacks("%", '\'')
  {}

  /** Ready to be written and read: named, of words, and with a text where it has no values. */
  predicate Fine(e: Sql.Expr) {
    Sql.Named(e) && Sql.Wordy(e) && Sql.Textual(e)
  }

  lemma ParamFine(key: string)
    requires key in ["ra", "dec", "design"]
    ensures Fine(Param(key)) && Sql.ExprText(Param(key)) == "sp.params->>'" + (key + "'")
  {
    CommonWords();
    NotKeywords();
    KeysLackQuotes();
    hide Sql.IsWord, Sql.IsKeyword, Sql.Lacks;
    var of := Sql.Name(["sp", "params"]);
    assert ["sp", "params"][1..] == ["params"];
    assert Sql.NameText(["sp", "params"]) == "sp" + ("." + "params");
    assert Sql.ExprText(of) == "sp" + ("." + "params");
    assert Sql.CastText(Sql.Text(key)) == "'" + (key + "'");
    assert Sql.ExprText(Param(key)) == ("sp" + ("." + "params")) + ("->>" + ("'" + (key + "'")));
    assert ("sp" + ("." + "params")) + ("->>" + "'") == "sp.params->>'";
  }

  lemma NameFine(table: string, column: string)
    requires Sql.IsWord(table) && Sql.IsWord(column) && !Sql.IsKeyword(table) && !Sql.IsKeyword(column)
    ensures var e := Sql.Name(["layer2", table, column]);
      Fine(e) && Sql.ExprText(e) == "layer2." + (table + ("." + column))
  {
    CommonWords();
    NotKeywords();
    hide Sql.IsWord, Sql.IsKeyword;
    assert ["layer2", table, column][1..] == [table, column] && [table, column][1..] == [column];
    assert Sql.NameText([table, column]) == table + ("." + column);
    assert Sql.NameText(["layer2", table, column]) == "layer2" + ("." + (table + ("." + column)));
    assert "layer2" + ("." + (table + ("." + column))) == ("layer2" + ".") + (table + ("." + column));
    assert "layer2" + "." == "layer2.";
    var e := Sql.Name(["layer2", table, column]);
    Sql.TextsAlike(e);
    assert Sql.PrimaryText(e) == Sql.NameText(["layer2", table, column]);
  }

  lemma PointFine(x: Sql.Expr, y: Sql.Expr)
    requires Fine(x) && Fine(y)
    ensures Fine(PointAt(x, y))
    ensures Sql.ExprText(PointAt(x, y)) ==
      "ST_MakePoint(" + (Sql.ExprText(x) + (", " + (Sql.ExprText(y) + ")::geography")))
  {
    FunctionWords();
    LongWords();
    NotKeywords();
    hide Sql.IsWord, Sql.IsKeyword;
    var call := Sql.Apply("ST_MakePoint", [x, y]);
    assert [x, y][1..] == [y];
    assert Sql.ListText([x, y]) == Sql.ExprText(x) + (", " + Sql.ExprText(y));
    assert forall a | a in [x, y] :: a == x || a == y;
    assert Fine(call);
    assert Sql.CastText(call) == Sql.PrimaryText(call);
    assert Sql.PrimaryText(call) == "ST_MakePoint" + ("(" + (Sql.ListText([x, y]) + ")"));
    assert Sql.ExprText(PointAt(x, y)) == Sql.CastText(call) + ("::" + "geography");
    PointTexts(Sql.ExprText(x), Sql.ExprText(y));
  }

  lemma PointTexts(x: string, y: string)
    ensures ("ST_MakePoint" + ("(" + ((x + (", " + y)) + ")"))) + ("::" + "geography") ==
      "ST_MakePoint(" + (x + (", " + (y + ")::geography")))
  {
    assert "ST_MakePoint" + "(" == "ST_MakePoint(";
    assert ")" + ("::" + "geography") == ")::geography";
    assert ("ST_MakePoint" + ("(" + ((x + (", " + y)) + ")"))) + ("::" + "geography") ==
      ("ST_MakePoint" + "(") + (x + (", " + (y + (")" + ("::" + "geography")))));
  }

  lemma FloatFine(key: string)
    requires key == "ra" || key == "dec"
    ensures Fine(Sql.Cast(Param(key), "float"))
    ensures Sql.ExprText(Sql.Cast(Param(key), "float")) == "(sp.params->>'" + (key + "')::float")
  {
    CommonWords();
    NotKeywords();
    hide Sql.IsWord, Sql.IsKeyword;
    ParamFine(key);
    var p := Param(key);
    assert Sql.PrimaryText(p) == "(" + (Sql.ExprText(p) + ")");
    assert Sql.ExprText(Sql.Cast(p, "float")) == Sql.CastText(p) + ("::" + "float");
    assert Sql.CastText(p) == Sql.PrimaryText(p);
    FloatTexts(key);
  }

  lemma FloatTexts(key: string)
    ensures ("(" + (("sp.params->>'" + (key + "'")) + ")")) + ("::" + "float") == "(sp.params->>'" + (key + "')::float")
  {
    assert "(" + "sp.params->>'" == "(sp.params->>'";
    assert "'" + (")" + ("::" + "float")) == "')::float";
    assert ("(" + (("sp.params->>'" + (key + "'")) + ")")) + ("::" + "float") ==
      ("(" + "sp.params->>'") + (key + ("'" + (")" + ("::" + "float"))));
  }

  // ---- Parts of the text ----

  lemma TextWritten(e: Sql.Expr)
    requires Fine(e)
    ensures Sql.Written(Sql.PrintExpr(e)) == Letters(Sql.ExprText(e))
  {
    Sql.ExprWritten(e);
  }

  lemma FixedWritten(v: Value)
    ensures Sql.Written(Sql.PrintExpr(Sql.Fixed(v))) == [Hole(v)]
    ensures Sql.Named(Sql.Fixed(v)) && Sql.Wordy(Sql.Fixed(v))
  {
    Sql.PrintsAlike(Sql.Fixed(v));
    Sql.WrittenOne(Sql.Given(v));
    assert [] + ([Hole(v)] + []) == [Hole(v)];
  }

  lemma KeywordWritten()
    ensures Sql.Written([Sql.Word("ILIKE")]) == Letters(" ILIKE ") && Sql.Written([Sql.Word("IN")]) == Letters(" IN ")
  {
    Sql.WrittenOne(Sql.Word("ILIKE"));
    Sql.WrittenOne(Sql.Word("IN"));
    Sql.LettersAppend(" ", "ILIKE" + " ");
    Sql.LettersAppend("ILIKE", " ");
    Sql.LettersAppend(" ", "IN" + " ");
    Sql.LettersAppend("IN", " ");
    BlankLetter();
    assert " " + ("ILIKE" + " ") == " ILIKE " && " " + ("IN" + " ") == " IN ";
  }

  lemma BlankLetter()
    ensures Letters(" ") == [Letter(' ')] && Letters("%") == [Letter('%')]
  {
    assert Letters("") == [];
  }

  lemma CallWritten(name: string, inner: seq<Sql.Token>, pieces: seq<Piece>)
    requires !Sql.IsKeyword(name) && Sql.Written(inner) == pieces
    ensures Sql.Written([Sql.Word(name), Sql.Open] + (inner + [Sql.Close])) == Letters(name + "(") + (pieces + Letters(")"))
  {
    hide Sql.Written, Letters, Sql.IsKeyword;
    Sql.WordWritten(name);
    Sql.SignsWritten();
    Sql.WrittenJoin([Sql.Word(name)], name, [Sql.Open], "(");
    assert [Sql.Word(name)] + [Sql.Open] == [Sql.Word(name), Sql.Open];
    Sql.WrittenAppend(inner, [Sql.Close]);
    Sql.WrittenAppend([Sql.Word(name), Sql.Open], inner + [Sql.Close]);
  }

  /** A list of one more argument. */
  lemma ListOn(e: Sql.Expr, rest: seq<Sql.Expr>, x: seq<Piece>, y: seq<Piece>)
    requires rest != [] && Sql.Written(Sql.PrintExpr(e)) == x && Sql.Written(Sql.PrintList(rest)) == y
    ensures Sql.Written(Sql.PrintList([e] + rest)) == x + (Letters(", ") + y)
  {
    hide Sql.Written, Letters;
    assert ([e] + rest)[1..] == rest;
    Sql.SignsWritten();
    Sql.WrittenAppend([Sql.Comma], Sql.PrintList(rest));
    Sql.WrittenAppend(Sql.PrintExpr(e), [Sql.Comma] + Sql.PrintList(rest));
  }

  lemma InfixWritten(a: seq<Sql.Token>, t: Sql.Token, b: seq<Sql.Token>, x: seq<Piece>, y: seq<Piece>, z: seq<Piece>)
    requires Sql.Written(a) == x && Sql.Written([t]) == y && Sql.Written(b) == z
    ensures Sql.Written(a + ([t] + b)) == x + (y + z)
  {
    hide Sql.Written;
    Sql.WrittenAppend([t], b);
    Sql.WrittenAppend(a, [t] + b);
  }

  // ---- The leaves ----

  lemma EqualsText(design: string)
    ensures var c := LeafCond(DesignationEquals(design));
      && Sql.CondNamed(c) && Sql.CondWordy(c)
      && Sql.Written(Sql.PrintCond(c)) == LeafPieces(DesignationEquals(design))
  {
    CommonWords();
    LongWords();
    NotKeywords();
    hide Sql.Written, Letters, Sql.IsWord, Sql.IsKeyword;
    var name, value := Sql.Name(["designation", "design"]), Sql.Fixed(OfText(design));
    assert ["designation", "design"][1..] == ["design"];
    Sql.TextsAlike(name);
    assert Sql.ExprText(name) == "designation" + ("." + "design");
    TextWritten(name);
    FixedWritten(OfText(design));
    Sql.SignsWritten();
    InfixWritten(Sql.PrintExpr(name), Sql.Equals, Sql.PrintExpr(value), Letters(Sql.ExprText(name)), Letters(" = "),
      [Hole(OfText(design))]);
    Sql.LettersAppend("designation" + ("." + "design"), " = ");
    assert ("designation" + ("." + "design")) + " = " == EQUALS_HEAD;
  }

  lemma CloseHeadText()
    ensures CLOSE_HEAD ==
      "levenshtein_less_equal(" + (("layer2." + ("designation" + ("." + "design"))) + (", " +
        (("sp.params->>'" + ("design" + "'")) + ", ")))
  {
    assert "levenshtein_less_equal(layer2." == "levenshtein_less_equal(" + "layer2.";
    assert "designation.design, " == ("designation" + ("." + "design")) + ", ";
    assert "sp.params->>'design', " == ("sp.params->>'" + ("design" + "'")) + ", ";
  }

  lemma CloseText(distance: int)
    ensures Sql.Written(Sql.PrintCond(LeafCond(DesignationClose(distance)))) == LeafPieces(DesignationClose(distance))
  {
    CommonWords();
    LongWords();
    NotKeywords();
    hide Sql.Written, Letters, Sql.IsWord, Sql.IsKeyword, Param, Sql.Named, Sql.Wordy, Sql.Textual;
    var name, limit := Sql.Name(["layer2", "designation", "design"]), Sql.Fixed(OfInt(distance));
    var call := Sql.Apply("levenshtein_less_equal", [name, Param("design"), limit]);
    NameFine("designation", "design");
    ParamFine("design");
    TextWritten(name);
    TextWritten(Param("design"));
    FixedWritten(OfInt(distance));
    var a, b, h := Letters(Sql.ExprText(name)), Letters(Sql.ExprText(Param("design"))), [Hole(OfInt(distance))];
    assert Sql.PrintList([limit]) == Sql.PrintExpr(limit);
    ListOn(Param("design"), [limit], b, h);
    assert [Param("design")] + [limit] == [Param("design"), limit];
    ListOn(name, [Param("design"), limit], a, b + (Letters(", ") + h));
    assert [name] + [Param("design"), limit] == [name, Param("design"), limit];
    CallWritten("levenshtein_less_equal", Sql.PrintList([name, Param("design"), limit]),
      a + (Letters(", ") + (b + (Letters(", ") + h))));
    Sql.PrintsAlike(call);
    Sql.SignsWritten();
    InfixWritten(Sql.PrintExpr(call), Sql.LessThan, Sql.PrintExpr(limit), Sql.Written(Sql.PrintExpr(call)),
      Letters(" < "), h);
    ClosePieces(Sql.ExprText(name), Sql.ExprText(Param("design")), h);
  }

  lemma CloseWords(distance: int)
    ensures Sql.CondNamed(LeafCond(DesignationClose(distance))) && Sql.CondWordy(LeafCond(DesignationClose(distance)))
  {
    CommonWords();
    LongWords();
    LevenshteinWord();
    NotKeywords();
    hide Sql.IsWord, Sql.IsKeyword, Param;
    var name, limit := Sql.Name(["layer2", "designation", "design"]), Sql.Fixed(OfInt(distance));
    NameFine("designation", "design");
    ParamFine("design");
    var args := [name, Param("design"), limit];
    forall e | e in args ensures Sql.Named(e) && Sql.Wordy(e) {
      assert e == name || e == Param("design") || e == limit;
    }
    assert Sql.Named(Sql.Apply("levenshtein_less_equal", args)) && Sql.Wordy(Sql.Apply("levenshtein_less_equal", args));
  }

  lemma ClosePieces(name: string, key: string, h: seq<Piece>)
    requires name == "layer2." + ("designation" + ("." + "design")) && key == "sp.params->>'" + ("design" + "'")
    ensures (Letters("levenshtein_less_equal" + "(") +
        ((Letters(name) + (Letters(", ") + (Letters(key) + (Letters(", ") + h)))) + Letters(")"))) + (Letters(" < ") + h)
      == Letters(CLOSE_HEAD) + (h + (Letters(") < ") + h))
  {
    hide Letters;
    CloseHeadText();
    LevenshteinTexts();
    var head := "levenshtein_less_equal(";
    CloseHeadLetters(head, name, key);
    Sql.LettersAppend(")", " < ");
    CloseRegroup(Letters(head), Letters(name), Letters(", "), Letters(key), h, Letters(")"), Letters(" < "));
  }

  lemma LevenshteinTexts()
    ensures "levenshtein_less_equal" + "(" == "levenshtein_less_equal(" && ")" + " < " == ") < "
  {}

  lemma CloseHeadLetters(head: string, name: string, key: string)
    ensures Letters(head + (name + (", " + (key + ", ")))) ==
      Letters(head) + (Letters(name) + (Letters(", ") + (Letters(key) + Letters(", "))))
  {
    hide Letters;
    Sql.LettersAppend(head, name + (", " + (key + ", ")));
    Sql.LettersAppend(name, ", " + (key + ", "));
    Sql.LettersAppend(", ", key + ", ");
    Sql.LettersAppend(key, ", ");
  }

  lemma CloseRegroup<T>(head: seq<T>, name: seq<T>, comma: seq<T>, key: seq<T>, h: seq<T>, close: seq<T>, less: seq<T>)
    ensures (head + ((name + (comma + (key + (comma + h)))) + close)) + (less + h) ==
      (head + (name + (comma + (key + comma)))) + (h + ((close + less) + h))
  {}

  lemma LikeText()
    ensures Sql.Written(Sql.PrintCond(LeafCond(DesignationLike))) == LeafPieces(DesignationLike)
  {
    CommonWords();
    LongWords();
    NotKeywords();
    hide Sql.Written, Letters, Sql.IsWord, Sql.IsKeyword, Param, Sql.Named, Sql.Wordy, Sql.Textual, LeafPieces;
    var name, mark := Sql.Name(["layer2", "designations", "design"]), Sql.Text("%");
    var call := Sql.Apply("CONCAT", [mark, Param("design"), mark]);
    NameFine("designations", "design");
    ParamFine("design");
    ConcatFine(mark, Param("design"));
    TextWritten(name);
    TextWritten(call);
    KeywordWritten();
    InfixWritten(Sql.PrintExpr(name), Sql.Word("ILIKE"), Sql.PrintExpr(call), Letters(Sql.ExprText(name)),
      Letters(" ILIKE "),
      Letters(Sql.ExprText(call)));
    CallText(mark, Param("design"));
    LikePieces(Sql.ExprText(name), Sql.ExprText(Param("design")));
  }

  lemma LikeWords()
    ensures Sql.CondNamed(LeafCond(DesignationLike)) && Sql.CondWordy(LeafCond(DesignationLike))
  {
    CommonWords();
    LongWords();
    NotKeywords();
    hide Sql.IsWord, Sql.IsKeyword, Param;
    NameFine("designations", "design");
    ParamFine("design");
    ConcatFine(Sql.Text("%"), Param("design"));
  }

  lemma ConcatFine(mark: Sql.Expr, key: Sql.Expr)
    requires mark == Sql.Text("%") && Fine(key)
    ensures Fine(Sql.Apply("CONCAT", [mark, key, mark]))
  {
    LongWords();
    NotKeywords();
    KeysLackQuotes();
    hide Sql.IsWord, Sql.IsKeyword, Sql.Lacks;
    assert forall e | e in [mark, key, mark] :: e == mark || e == key;
    assert Fine(mark);
  }

  lemma CallText(mark: Sql.Expr, key: Sql.Expr)
    requires mark == Sql.Text("%")
    ensures Sql.ExprText(Sql.Apply("CONCAT", [mark, key, mark])) ==
      "CONCAT" + ("(" + (("'%'" + (", " + (Sql.ExprText(key) + (", " + "'%'")))) + ")"))
  {
    var call := Sql.Apply("CONCAT", [mark, key, mark]);
    Sql.TextsAlike(call);
    Sql.TextsAlike(mark);
    assert "'" + ("%" + "'") == "'%'";
    assert [mark, key, mark][1..] == [key, mark] && [key, mark][1..] == [mark];
    assert Sql.ListText([mark]) == "'%'";
    assert Sql.ListText([key, mark]) == Sql.ExprText(key) + (", " + "'%'");
    assert Sql.ListText([mark, key, mark]) == "'%'" + (", " + (Sql.ExprText(key) + (", " + "'%'")));
    assert Sql.PrimaryText(call) == "CONCAT" + ("(" + (Sql.ListText([mark, key, mark]) + ")"));
  }

  lemma LikeHeadText()
    ensures LIKE_HEAD == "layer2.designations.design" + (" ILIKE " + ("CONCAT" + ("(" + "'")))
  {
    assert " ILIKE " + ("CONCAT" + ("(" + "'")) == " ILIKE CONCAT('";
    assert LIKE_HEAD == "layer2.designations.design" + " ILIKE CONCAT('";
  }

  lemma LikeMiddleText()
    ensures LIKE_MIDDLE == "'" + (", " + ("sp.params->>'design'" + (", " + "'")))
  {
    assert ", " + "'" == ", '" && "'" + ", " == "', ";
    assert "', " + "sp.params->>'design'" == "', sp.params->>'design'";
    assert LIKE_MIDDLE == "', sp.params->>'design'" + ", '";
  }

  lemma LikeNames(name: string, key: string)
    requires name == "layer2." + ("designations" + ("." + "design")) && key == "sp.params->>'" + ("design" + "'")
    ensures name == "layer2.designations.design" && key == "sp.params->>'design'"
  {}

  lemma LikeRegroup(name: string, like: string, call: string, open: string, quote: string, comma: string, key: string,
                    mark: string, close: string)
    ensures name + (like + (call + (open + (((quote + (mark + quote)) + (comma + (key + (comma + (quote + (mark + quote)))))) +
      close))))
      == (name + (like + (call + (open + quote)))) +
         (mark + ((quote + (comma + (key + (comma + quote)))) + (mark + (quote + close))))
  {}

  lemma LikeTexts(name: string, key: string)
    requires name == "layer2." + ("designations" + ("." + "design")) && key == "sp.params->>'" + ("design" + "'")
    ensures name + (" ILIKE " + ("CONCAT" + ("(" + (("'%'" + (", " + (key + (", " + "'%'")))) + ")")))) ==
      LIKE_HEAD + ("%" + (LIKE_MIDDLE + ("%" + "')")))
  {
    LikeNames(name, key);
    LikeHeadText();
    LikeMiddleText();
    assert "'%'" == "'" + ("%" + "'") && "')" == "'" + ")";
    LikeRegroup(name, " ILIKE ", "CONCAT", "(", "'", ", ", key, "%", ")");
  }

  lemma LikeLetters()
    ensures LeafPieces(DesignationLike) == Letters(LIKE_HEAD + ("%" + (LIKE_MIDDLE + ("%" + "')"))))
  {
    BlankLetter();
    hide Letters;
    Sql.LettersAppend(LIKE_HEAD, "%" + (LIKE_MIDDLE + ("%" + "')")));
    Sql.LettersAppend("%", LIKE_MIDDLE + ("%" + "')"));
    Sql.LettersAppend(LIKE_MIDDLE, "%" + "')");
    Sql.LettersAppend("%", "')");
  }

  lemma LikePieces(name: string, key: string)
    requires name == "layer2." + ("designations" + ("." + "design")) && key == "sp.params->>'" + ("design" + "'")
    ensures var call := "CONCAT" + ("(" + (("'%'" + (", " + (key + (", " + "'%'")))) + ")"));
      Letters(name) + (Letters(" ILIKE ") + Letters(call)) == LeafPieces(DesignationLike)
  {
    hide Letters, LeafPieces;
    LikeTexts(name, key);
    LikeLetters();
    var call := "CONCAT" + ("(" + (("'%'" + (", " + (key + (", " + "'%'")))) + ")"));
    Sql.LettersAppend(" ILIKE ", call);
    Sql.LettersAppend(name, " ILIKE " + call);
  }

  lemma {:induction false} PgcListText(pgcs: seq<Pgc>)
    ensures Sql.Written(Sql.PrintList(PgcExprs(pgcs))) == PgcHoles(pgcs)
    ensures Sql.AllNamed(PgcExprs(pgcs)) && Sql.AllWordy(PgcExprs(pgcs))
  {
    if pgcs != [] {
      PgcListText(pgcs[1..]);
      FixedWritten(OfPgc(pgcs[0]));
      if |pgcs| == 1 {
        assert PgcExprs(pgcs[1..]) == [] && PgcExprs(pgcs) == [Sql.Fixed(OfPgc(pgcs[0]))];
      } else {
        ListOn(Sql.Fixed(OfPgc(pgcs[0])), PgcExprs(pgcs[1..]), [Hole(OfPgc(pgcs[0]))], PgcHoles(pgcs[1..]));
      }
    }
  }

  lemma OneOfText(pgcs: seq<Pgc>)
    ensures var c := LeafCond(PgcOneOf(pgcs));
      && (pgcs != [] ==> Sql.CondNamed(c)) && Sql.CondWordy(c)
      && Sql.Written(Sql.PrintCond(c)) == LeafPieces(PgcOneOf(pgcs))
  {
    CommonWords();
    NotKeywords();
    hide Sql.Written, Letters, Sql.IsWord, Sql.IsKeyword;
    var name, list := Sql.Name(["pgc"]), Sql.PrintList(PgcExprs(pgcs));
    Sql.TextsAlike(name);
    assert Sql.ExprText(name) == "pgc";
    TextWritten(name);
    PgcListText(pgcs);
    KeywordWritten();
    Sql.SignsWritten();
    Sql.WrittenAppend(list, [Sql.Close]);
    Sql.WrittenAppend([Sql.Open], list + [Sql.Close]);
    InfixWritten(Sql.PrintExpr(name), Sql.Word("IN"), [Sql.Open] + (list + [Sql.Close]), Letters("pgc"), Letters(" IN "),
      Letters("(") + (PgcHoles(pgcs) + Letters(")")));
    assert [Sql.Word("IN")] + ([Sql.Open] + (list + [Sql.Close])) == [Sql.Word("IN"), Sql.Open] + (list + [Sql.Close]);
    Sql.LettersAppend("pgc" + " IN ", "(");
    Sql.LettersAppend("pgc", " IN ");
    assert ("pgc" + " IN ") + "(" == PGC_HEAD;
  }

  lemma SearchTexts()
    ensures "(sp.params->>'" + ("ra" + "')::float") == "(sp.params->>'ra')::float"
    ensures "(sp.params->>'" + ("dec" + "')::float") == "(sp.params->>'dec')::float"
  {}

  lemma ObjectTexts()
    ensures "layer2." + ("icrs" + ("." + "ra")) == "layer2.icrs.ra"
    ensures "layer2." + ("icrs" + ("." + "dec")) == "layer2.icrs.dec"
  {}

  lemma FirstTexts()
    ensures "ST_DWithin(ST_MakePoint(" == "ST_DWithin(" + "ST_MakePoint("
    ensures "(sp.params->>'ra')::float, " == "(sp.params->>'ra')::float" + ", "
  {}

  lemma SecondTexts()
    ensures "(sp.params->>'dec')::float)::geography, " == "(sp.params->>'dec')::float" + (")::geography" + ", ")
  {}

  lemma ThirdTexts()
    ensures "ST_MakePoint(layer2.icrs.ra, " == "ST_MakePoint(" + ("layer2.icrs.ra" + ", ")
    ensures "layer2.icrs.dec)::geography, " == "layer2.icrs.dec" + (")::geography" + ", ")
  {}

  lemma PointRegroup(head: string, open: string, x: string, comma: string, y: string, tail: string)
    ensures (head + open) + ((x + comma) + (y + (tail + comma))) == head + ((open + (x + (comma + (y + tail)))) + comma)
    ensures (open + (x + comma)) + (y + (tail + comma)) == (open + (x + (comma + (y + tail)))) + comma
  {}

  lemma RadiusHeads(search: string, target: string)
    requires search == "ST_MakePoint(" + (("(sp.params->>'" + ("ra" + "')::float")) + (", " +
      (("(sp.params->>'" + ("dec" + "')::float")) + ")::geography")))
    requires target == "ST_MakePoint(" + (("layer2." + ("icrs" + ("." + "ra"))) + (", " +
      (("layer2." + ("icrs" + ("." + "dec"))) + ")::geography")))
    ensures RADIUS_HEAD == "ST_DWithin(" + (search + ", ") && RADIUS_MIDDLE == target + ", "
  {
    SearchTexts();
    ObjectTexts();
    FirstTexts();
    SecondTexts();
    ThirdTexts();
    PointRegroup("ST_DWithin(", "ST_MakePoint(", "(sp.params->>'ra')::float", ", ",
      "(sp.params->>'dec')::float", ")::geography");
    PointRegroup("", "ST_MakePoint(", "layer2.icrs.ra", ", ", "layer2.icrs.dec", ")::geography");
  }

  lemma RadiusText(radius: real)
    ensures var c := LeafCond(InRadius(radius));
      && Sql.CondNamed(c) && Sql.CondWordy(c)
      && Sql.Written(Sql.PrintCond(c)) == LeafPieces(InRadius(radius))
  {
    CommonWords();
    FunctionWords();
    NotKeywords();
    hide Sql.Written, Letters, Sql.IsWord, Sql.IsKeyword, Param, PointAt, Sql.Named, Sql.Wordy, Sql.Textual;
    var x, y := Sql.Name(["layer2", "icrs", "ra"]), Sql.Name(["layer2", "icrs", "dec"]);
    var size, flat := Sql.Fixed(OfReal(radius)), Sql.Name(["false"]);
    FloatFine("ra");
    FloatFine("dec");
    NameFine("icrs", "ra");
    NameFine("icrs", "dec");
    PointFine(Sql.Cast(Param("ra"), "float"), Sql.Cast(Param("dec"), "float"));
    PointFine(x, y);
    RadiusHeads(Sql.ExprText(SearchPoint()), Sql.ExprText(ObjectPoint()));
    hide SearchPoint, ObjectPoint;
    RadiusCall(SearchPoint(), ObjectPoint(), size, flat, OfReal(radius));
  }

  /** The call, of points whose texts are known. */
  lemma RadiusCall(a: Sql.Expr, b: Sql.Expr, size: Sql.Expr, flat: Sql.Expr, v: Value)
    requires Fine(a) && Fine(b) && size == Sql.Fixed(v) && flat == Sql.Name(["false"])
    requires RADIUS_HEAD == "ST_DWithin(" + (Sql.ExprText(a) + ", ") && RADIUS_MIDDLE == Sql.ExprText(b) + ", "
    ensures var call := Sql.Apply("ST_DWithin", [a, b, size, flat]);
      && Sql.Named(call) && Sql.Wordy(call)
      && Sql.Written(Sql.PrintExpr(call)) ==
           Letters(RADIUS_HEAD) + (Letters(RADIUS_MIDDLE) + ([Hole(v)] + Letters(", false)")))
  {
    CommonWords();
    NotKeywords();
    hide Sql.Written, Letters, Sql.IsWord, Sql.IsKeyword;
    var call := Sql.Apply("ST_DWithin", [a, b, size, flat]);
    RadiusWords(a, b, size, flat, v);
    Sql.TextsAlike(flat);
    assert Sql.ExprText(flat) == "false" && Fine(flat);
    hide Sql.Named, Sql.Wordy, Sql.Textual;
    TextWritten(a);
    TextWritten(b);
    TextWritten(flat);
    FixedWritten(v);
    var s, o, h, f := Letters(Sql.ExprText(a)), Letters(Sql.ExprText(b)), [Hole(v)], Letters("false");
    assert Sql.PrintList([flat]) == Sql.PrintExpr(flat);
    ListOn(size, [flat], h, f);
    assert [size] + [flat] == [size, flat];
    ListOn(b, [size, flat], o, h + (Letters(", ") + f));
    assert [b] + [size, flat] == [b, size, flat];
    ListOn(a, [b, size, flat], s, o + (Letters(", ") + (h + (Letters(", ") + f))));
    assert [a] + [b, size, flat] == [a, b, size, flat];
    CallWritten("ST_DWithin", Sql.PrintList([a, b, size, flat]),
      s + (Letters(", ") + (o + (Letters(", ") + (h + (Letters(", ") + f))))));
    Sql.PrintsAlike(call);
    RadiusPieces(Sql.ExprText(a), Sql.ExprText(b), h);
  }

  lemma RadiusWords(a: Sql.Expr, b: Sql.Expr, size: Sql.Expr, flat: Sql.Expr, v: Value)
    requires Fine(a) && Fine(b) && size == Sql.Fixed(v) && flat == Sql.Name(["false"])
    ensures Sql.Named(Sql.Apply("ST_DWithin", [a, b, size, flat])) && Sql.Wordy(Sql.Apply("ST_DWithin", [a, b, size, flat]))
  {
    CommonWords();
    FunctionWords();
    hide Sql.IsWord, Sql.IsKeyword;
    assert forall e | e in [a, b, size, flat] :: e == a || e == b || e == size || e == flat;
  }

  lemma RadiusPieces(a: string, b: string, h: seq<Piece>)
    ensures Letters("ST_DWithin" + "(") +
        ((Letters(a) + (Letters(", ") + (Letters(b) + (Letters(", ") + (h + (Letters(", ") + Letters("false"))))))) +
        Letters(")"))
      == Letters("ST_DWithin(" + (a + ", ")) + (Letters(b + ", ") + (h + Letters(", false)")))
  {
    hide Letters;
    WithinTexts();
    Sql.LettersAppend("ST_DWithin(", a + ", ");
    Sql.LettersAppend(a, ", ");
    Sql.LettersAppend(b, ", ");
    Sql.LettersAppend(", ", "false" + ")");
    Sql.LettersAppend("false", ")");
    RadiusRegroup(Letters("ST_DWithin("), Letters(a), Letters(", "), Letters(b), h, Letters("false"), Letters(")"));
  }

  lemma WithinTexts()
    ensures "ST_DWithin" + "(" == "ST_DWithin(" && ", " + ("false" + ")") == ", false)"
  {}

  lemma RadiusRegroup<T>(head: seq<T>, a: seq<T>, comma: seq<T>, b: seq<T>, h: seq<T>, flat: seq<T>, close: seq<T>)
    ensures head + ((a + (comma + (b + (comma + (h + (comma + flat)))))) + close) ==
      (head + (a + comma)) + ((b + comma) + (h + (comma + (flat + close))))
  {}

  // ---- The main result ----

  lemma LeafWritten(f: Filter)
    requires IsLeaf(f)
    ensures f != PgcOneOf([]) ==> Sql.CondNamed(LeafCond(f))
    ensures Sql.CondWordy(LeafCond(f)) && Sql.Written(Sql.PrintCond(LeafCond(f))) == LeafPieces(f)
  {
    match f
    case PgcOneOf(pgcs) => OneOfText(pgcs);
    case DesignationEquals(design) => EqualsText(design);
    case DesignationClose(distance) =>
      CloseText(distance);
      CloseWords(distance);
    case DesignationLike =>
      LikeText();
      LikeWords();
    case InRadius(radius) => RadiusText(radius);
  }

  /** The text of a leaf with its values bound is read as the leaf's condition, and means the leaf on every row. */
  lemma LeafTextMeans(db: Predicates, f: Filter, row: Joined)
    requires IsLeaf(f) && f != PgcOneOf([])
    ensures var bound := Bind(LeafText(f), LeafValues(f));
      && bound.Bound? && bound.unused == []
      && Sql.ReadCond(bound.pieces) == Some(LeafCond(f))
      && ConditionOfText(db, bound.pieces, row) == Some(EvalLeaf(db, f, row))
  {
    hide Sql.ReadCond, LeafPieces, LeafText, LeafCond, EvalLeaf;
    LeafBinds(f);
    LeafWritten(f);
    Sql.CondReads(LeafCond(f));
    LeafCondMeans(db, f, row);
  }

  /** A filter for no object is no condition. */
  lemma EmptyListIsNoCondition()
    ensures Sql.ReadCond(LeafPieces(PgcOneOf([]))) == Option.None
  {
    hide Sql.Written, Sql.Lex, Sql.ParseCond, Sql.PrintCond, LeafPieces;
    OneOfText([]);
    var c := LeafCond(PgcOneOf([]));
    Sql.CondLegible(c);
    Sql.WrittenIsRead(Sql.PrintCond(c));
    Sql.NoListFails(Sql.Name(["pgc"]), []);
    assert Sql.PrintCond(c) + [] == Sql.PrintCond(c);
  }
}

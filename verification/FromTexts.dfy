/** The FROM clause read as the database reads it, from its characters on. */
module FromTexts {
  import opened Collections
  import opened Filters
  import opened Binding
  import opened QueryPlan
  import opened FromClause
  import Sql
  import opened LeafTexts
  import opened QueryTexts
  import opened WhereTexts

  // ---- Reading ----

  const CROSS: seq<Sql.Token> := [Sql.Word("CROSS"), Sql.Word("JOIN")]
  const LEFT: seq<Sql.Token> := [Sql.Word("LEFT"), Sql.Word("JOIN")]
  const FULL: seq<Sql.Token> := [Sql.Word("FULL"), Sql.Word("JOIN")]
  const USING: seq<Sql.Token> := [Sql.Word("USING"), Sql.Open, Sql.Word("pgc"), Sql.Close]
  const SEARCHES: seq<Sql.Token> := [Sql.Word("search_params"), Sql.Word("sp")]

  function After(w: Word, words: Option<seq<Word>>): Option<seq<Word>> {
    if words.None? then Option.None else Some([w] + words.value)
  }

  /** The words of a FROM clause; a name that is none of them is a table's. */
  function ReadWords(ts: seq<Sql.Token>): Option<seq<Word>>
    decreases |ts|
  {
    if ts == [] then Some([])
    else if CROSS <= ts then After(CrossWord, ReadWords(ts[2..]))
    else if LEFT <= ts then After(LeftWord, ReadWords(ts[2..]))
    else if FULL <= ts then After(FullWord, ReadWords(ts[2..]))
    else if USING <= ts then After(UsingPgc, ReadWords(ts[4..]))
    else if SEARCHES <= ts then After(Searches, ReadWords(ts[2..]))
    else if ts[0].Word? then
      var name := Sql.ParseName(ts);
      After(Word.Named(Sql.NameText(name.0)), ReadWords(name.1))
    else Option.None
  }

  function ReadFrom(ps: seq<Piece>): Option<seq<Word>> {
    var ts := Sql.Lex(ps);
    if ts.None? then Option.None else ReadWords(ts.value)
  }

  // ---- The words in tokens ----

  /** Where the layer-2 tables and views are. */
  predicate InLayer2(table: Relation) {
    |table| >= 7 && table[..7] == "layer2." && PlainWord(NameOf(table))
  }

  function NameOf(table: Relation): string {
    if |table| >= 7 then table[7..] else ""
  }

  function TokensOfWord(w: Word): seq<Sql.Token> {
    match w
    case Searches => SEARCHES
    case Named(table) => Sql.PrintName(["layer2", NameOf(table)])
    case CrossWord => CROSS
    case LeftWord => LEFT
    case FullWord => FULL
    case UsingPgc => USING
    case Open => [Sql.Open]
    case Close => [Sql.Close]
  }

  function TokensOfWords(words: seq<Word>): seq<Sql.Token> {
    if words == [] then [] else TokensOfWord(words[0]) + TokensOfWords(words[1..])
  }

  lemma NameFacts(table: Relation)
    requires InLayer2(table)
    ensures table == "layer2." + NameOf(table) && PlainWord(NameOf(table))
    ensures Sql.NameText(["layer2", NameOf(table)]) == table
    ensures TokensOfWord(Word.Named(table)) == [Sql.Word("layer2"), Sql.Dot, Sql.Word(NameOf(table))]
  {
    var name := NameOf(table);
    assert table == table[..7] + table[7..];
    assert ["layer2", name][1..] == [name] && [name][1..] == [];
    assert Sql.PrintName([name]) == [Sql.Word(name)];
    assert Sql.NameText(["layer2", name]) == "layer2" + ("." + name);
    assert "layer2" + "." == "layer2.";
    assert "layer2" + ("." + name) == ("layer2" + ".") + name;
  }

  // ---- What is written is read ----

  lemma WordsDiffer()
    ensures CROSS[0] != LEFT[0] && CROSS[0] != FULL[0] && LEFT[0] != FULL[0] && CROSS[0] != USING[0]
    ensures LEFT[0] != USING[0] && FULL[0] != USING[0] && CROSS[0] != SEARCHES[0] && LEFT[0] != SEARCHES[0]
    ensures FULL[0] != SEARCHES[0] && USING[0] != SEARCHES[0]
    ensures forall w | w in [CROSS[0], LEFT[0], FULL[0], USING[0], SEARCHES[0]] :: w != Sql.Word("layer2")
  {
    assert "CROSS"[0] == 'C' && "LEFT"[0] == 'L' && "FULL"[0] == 'F' && "USING"[0] == 'U';
    assert "search_params"[0] == 's' && "layer2"[0] == 'l';
  }

  lemma ReadOn(w: Word, rest: seq<Sql.Token>)
    requires w.Searches? || w.CrossWord? || w.LeftWord? || w.FullWord? || w.UsingPgc?
    ensures ReadWords(TokensOfWord(w) + rest) == After(w, ReadWords(rest))
  {
    WordsDiffer();
    var ts := TokensOfWord(w) + rest;
    assert ts[0] == TokensOfWord(w)[0] && TokensOfWord(w) <= ts && ts[|TokensOfWord(w)|..] == rest;
  }

  lemma ReadName(table: Relation, rest: seq<Sql.Token>)
    requires InLayer2(table) && Sql.EndsPrimary(rest)
    ensures ReadWords(TokensOfWord(Word.Named(table)) + rest) == After(Word.Named(table), ReadWords(rest))
  {
    WordsDiffer();
    NameFacts(table);
    var path := ["layer2", NameOf(table)];
    Sql.NameParses(path, rest);
    var ts := TokensOfWord(Word.Named(table)) + rest;
    assert ts[0] == Sql.Word("layer2");
    hide Sql.ParseName, TokensOfWord, Sql.EndsPrimary;
  }

  predicate Joining(join: Word) {
    join.CrossWord? || join.LeftWord? || join.FullWord?
  }

  lemma {:induction false} JoinsRead(join: Word, tables: seq<Relation>)
    requires Joining(join) && forall t | t in tables :: InLayer2(t)
    ensures ReadWords(TokensOfWords(JoinWords(join, tables))) == Some(JoinWords(join, tables))
    ensures Sql.EndsPrimary(TokensOfWords(JoinWords(join, tables)))
  {
    hide ReadWords, InLayer2, TokensOfWord;
    if tables == [] {
      NothingRead();
    } else {
      assert tables[0] in tables && forall t | t in tables[1..] :: t in tables;
      JoinsRead(join, tables[1..]);
      JoinRead(join, tables[0], JoinWords(join, tables[1..]));
      assert [join] + ([Word.Named(tables[0])] + ([UsingPgc] + JoinWords(join, tables[1..]))) == JoinWords(join, tables);
    }
  }

  lemma JoinRead(join: Word, table: Relation, more: seq<Word>)
    requires Joining(join) && InLayer2(table) && ReadWords(TokensOfWords(more)) == Some(more)
    ensures var words := [join] + ([Word.Named(table)] + ([UsingPgc] + more));
      ReadWords(TokensOfWords(words)) == Some(words) && Sql.EndsPrimary(TokensOfWords(words))
  {
    var name, last := Word.Named(table), TokensOfWords(more);
    BeginsWithWord(join);
    BeginsWithWord(UsingPgc);
    hide ReadWords, InLayer2, TokensOfWords, TokensOfWord;
    ReadOn(UsingPgc, last);
    assert TokensOfWord(UsingPgc) + last == USING + last && Sql.EndsPrimary(USING + last);
    ReadName(table, USING + last);
    ReadOn(join, TokensOfWord(name) + (USING + last));
    ThreeTokens(join, name, more);
  }

  lemma BeginsWithWord(w: Word)
    requires Joining(w) || w.UsingPgc?
    ensures TokensOfWord(w) != [] && TokensOfWord(w)[0].Word? && (w.UsingPgc? ==> TokensOfWord(w) == USING)
  {}

  lemma NothingRead()
    ensures ReadWords([]) == Some([])
  {}

  lemma TokensOn(w: Word, words: seq<Word>)
    ensures TokensOfWords([w] + words) == TokensOfWord(w) + TokensOfWords(words)
  {
    assert ([w] + words)[1..] == words;
  }

  lemma ThreeTokens(a: Word, b: Word, words: seq<Word>)
    ensures TokensOfWords([a] + ([b] + ([UsingPgc] + words))) ==
      TokensOfWord(a) + (TokensOfWord(b) + (USING + TokensOfWords(words)))
  {
    TokensOn(UsingPgc, words);
    TokensOn(b, [UsingPgc] + words);
    TokensOn(a, [b] + ([UsingPgc] + words));
  }

  // ---- What the words look like ----

  const SEARCH_ITEMS: seq<Sql.Item> := [Sql.Tok(SEARCHES[0]), Sql.Gap, Sql.Tok(SEARCHES[1])]

  function ItemsOfWord(w: Word): seq<Sql.Item> {
    if w.Searches? then SEARCH_ITEMS else Sql.Layout(TokensOfWord(w))
  }

  function ItemsOfWords(words: seq<Word>): seq<Sql.Item> {
    if words == [] then [] else ItemsOfWord(words[0]) + ItemsOfWords(words[1..])
  }

  predicate IsName(w: Word) {
    w.Searches? || w.Named?
  }

  /** Tables are in layer 2, and no two names follow one another. */
  predicate Spread(words: seq<Word>) {
    && (forall w | w in words :: (w.Named? ==> InLayer2(w.table)) && !w.Open? && !w.Close?)
    && forall i | 0 <= i < |words| - 1 :: IsName(words[i]) ==> !IsName(words[i + 1])
  }

  predicate WordFacts(w: Word) {
    && Sql.Spell(ItemsOfWord(w)) == Letters(WordText(w)) && Sql.TokensOf(ItemsOfWord(w)) == TokensOfWord(w)
    && Sql.Readable(ItemsOfWord(w)) && ItemsOfWord(w) != []
    && (!IsName(w) ==> Begins(ItemsOfWord(w)) && Finishes(ItemsOfWord(w)))
  }

  lemma SearchesFacts()
    ensures WordFacts(Searches)
  {
    SearchWords();
    TwoNames("search_params", "sp");
    SearchText();
    hide Sql.IsWord, Letters, Sql.Spell, Sql.TokensOf, Sql.Readable;
    assert ItemsOfWord(Searches) == [Sql.Tok(Sql.Word("search_params")), Sql.Gap, Sql.Tok(Sql.Word("sp"))];
  }

  lemma SearchText()
    ensures "search_params" + (" " + "sp") == "search_params sp"
  {}

  lemma TwoNames(a: string, b: string)
    requires Sql.IsWord(a) && Sql.IsWord(b)
    ensures var items := [Sql.Tok(Sql.Word(a)), Sql.Gap, Sql.Tok(Sql.Word(b))];
      Sql.Spell(items) == Letters(a + (" " + b)) && Sql.TokensOf(items) == [Sql.Word(a), Sql.Word(b)] && Sql.Readable(items)
  {
    hide Sql.IsWord, Letters;
    var x, y := Sql.Tok(Sql.Word(a)), Sql.Tok(Sql.Word(b));
    assert [x, Sql.Gap, y][1..] == [Sql.Gap, y] && [Sql.Gap, y][1..] == [y] && [y][1..] == [];
    assert Sql.Spell([]) == [] && Sql.TokensOf([]) == [] && Sql.Readable([]);
    assert Sql.Spell([y]) == Letters(b) && Sql.TokensOf([y]) == [Sql.Word(b)] && Sql.Readable([y]);
    assert Sql.Spell([Sql.Gap, y]) == [Letter(' ')] + Letters(b) && Sql.TokensOf([Sql.Gap, y]) == [Sql.Word(b)];
    assert Sql.Readable([Sql.Gap, y]);
    BlankLetter();
    Sql.LettersAppend(" ", b);
    Sql.LettersAppend(a, " " + b);
  }

  lemma SearchWords()
    ensures Sql.IsWord("search_params") && Sql.IsWord("sp")
  {}

  lemma LegibleFacts(w: Word)
    requires !w.Searches? && Sql.Legible(TokensOfWord(w)) && TokensOfWord(w) != []
    requires Sql.Written(TokensOfWord(w)) == Letters(WordText(w))
    ensures Sql.Spell(ItemsOfWord(w)) == Letters(WordText(w)) && Sql.TokensOf(ItemsOfWord(w)) == TokensOfWord(w)
    ensures Sql.Readable(ItemsOfWord(w)) && ItemsOfWord(w) != []
  {
    hide Sql.Legible, TokensOfWord, WordText, Letters, Sql.Spell, Sql.TokensOf, Sql.Readable;
    Sql.LayoutReadable(TokensOfWord(w));
    Sql.LayoutTokens(TokensOfWord(w));
    Sql.FirstOfLayout(TokensOfWord(w));
  }

  lemma TableFacts(table: Relation)
    requires InLayer2(table)
    ensures WordFacts(Word.Named(table))
  {
    CommonWords();
    NotKeywords();
    hide Sql.IsWord, Sql.IsKeyword, Letters, Sql.Readable, Sql.Spell, Sql.TokensOf, Sql.Legible;
    NameFacts(table);
    var path := ["layer2", NameOf(table)];
    var e := Sql.Name(path);
    Sql.TextsAlike(e);
    Sql.PrintsAlike(e);
    assert Fine(e);
    TextWritten(e);
    Sql.ExprLegible(e);
    LegibleFacts(Word.Named(table));
  }

  lemma JoinFacts(w: Word)
    requires Joining(w)
    ensures WordFacts(w)
  {
    JoinTexts();
    JoinKeywords();
    hide Sql.IsWord, Letters, Sql.Readable, Sql.Spell, Sql.TokensOf, Sql.Legible, Sql.Written, Sql.GapBefore, Sql.GapAfter;
    hide Sql.Layout, Begins, Finishes;
    match w {
      case CrossWord => JoinWith("CROSS");
      case LeftWord => JoinWith("LEFT");
      case _ => JoinWith("FULL");
    }
    LegibleFacts(w);
  }

  predicate JoinKeyword(first: string) {
    && Sql.IsWord(first) && Sql.GapBefore(Sql.Word(first)) && !Sql.GapAfter(Sql.Word(first))
    && Sql.IsWord("JOIN") && Sql.GapBefore(Sql.Word("JOIN")) && Sql.GapAfter(Sql.Word("JOIN"))
  }

  lemma JoinKeywords()
    ensures JoinKeyword("CROSS") && JoinKeyword("LEFT") && JoinKeyword("FULL")
  {}

  lemma JoinWith(first: string)
    requires JoinKeyword(first)
    ensures var ts := [Sql.Word(first), Sql.Word("JOIN")];
      && Sql.Legible(ts) && Sql.Written(ts) == Letters((" " + first) + (" " + ("JOIN" + " ")))
      && Begins(Sql.Layout(ts)) && Finishes(Sql.Layout(ts))
  {
    hide Sql.IsWord, Sql.GapBefore, Sql.GapAfter, Letters, Sql.Written;
    FirstGap(first);
    BothGaps("JOIN");
    assert [Sql.Word(first)] + [Sql.Word("JOIN")] == [Sql.Word(first), Sql.Word("JOIN")];
    Sql.WrittenJoin([Sql.Word(first)], " " + first, [Sql.Word("JOIN")], " " + ("JOIN" + " "));
    Sql.LayoutAppend([Sql.Word(first)], [Sql.Word("JOIN")]);
    LastOfLayout(Sql.Word("JOIN"));
    Sql.FirstOfLayout([Sql.Word(first)]);
  }

  lemma JoinTexts()
    ensures (" " + "CROSS") + (" " + ("JOIN" + " ")) == " CROSS JOIN "
    ensures (" " + "LEFT") + (" " + ("JOIN" + " ")) == " LEFT JOIN "
    ensures (" " + "FULL") + (" " + ("JOIN" + " ")) == " FULL JOIN "
  {}

  lemma UsingFacts()
    ensures WordFacts(UsingPgc)
  {
    UsingWords();
    hide Sql.IsWord, Sql.IsKeyword, Letters, Sql.Readable, Sql.Spell, Sql.TokensOf, Sql.Legible, Sql.Written;
    LegibleFacts(UsingPgc);
    Sql.FirstOfLayout(USING);
    Sql.LayoutAppend(USING[..3], [Sql.Close]);
    assert USING[..3] + [Sql.Close] == USING;
    LastOfLayout(Sql.Close);
  }

  lemma UsingWords()
    ensures Sql.GapBefore(USING[0]) && Sql.Legible(USING) && Sql.Written(USING) == Letters(" USING (pgc)")
  {
    UsingWord();
    CommonWords();
    NotKeywords();
    UsingLegible();
    UsingText();
    hide Letters, Sql.Written, Sql.IsWord, Sql.IsKeyword, Sql.Legible;
    Sql.WordWritten("pgc");
    Sql.EnclosedWritten([Sql.Word("pgc")], "pgc");
    var tail := [Sql.Open] + ([Sql.Word("pgc")] + [Sql.Close]);
    Sql.WrittenJoin([Sql.Word("USING")], " " + ("USING" + " "), tail, "(" + ("pgc" + ")"));
    assert [Sql.Word("USING")] + tail == USING;
  }

  lemma UsingWord()
    ensures Sql.Written([Sql.Word("USING")]) == Letters(" " + ("USING" + " "))
  {
    BothGaps("USING");
  }

  lemma UsingText()
    ensures (" " + ("USING" + " ")) + ("(" + ("pgc" + ")")) == " USING (pgc)"
  {}

  lemma UsingLegible()
    ensures Sql.Legible(USING) && Sql.GapBefore(USING[0])
  {}

  lemma FactsOf(w: Word)
    requires (w.Named? ==> InLayer2(w.table)) && !w.Open? && !w.Close?
    ensures WordFacts(w)
  {
    hide WordFacts;
    match w
    case Searches => SearchesFacts();
    case Named(table) => TableFacts(table);
    case CrossWord => JoinFacts(w);
    case LeftWord => JoinFacts(w);
    case FullWord => JoinFacts(w);
    case UsingPgc => UsingFacts();
    case _ =>
  }

  lemma NoLetters()
    ensures Letters("") == []
  {}

  lemma {:induction false} TextItems(words: seq<Word>)
    requires Spread(words)
    ensures Sql.Readable(ItemsOfWords(words)) && Sql.Spell(ItemsOfWords(words)) == Letters(Text(words))
    ensures Sql.TokensOf(ItemsOfWords(words)) == TokensOfWords(words)
    ensures words != [] && Begins(ItemsOfWord(words[0])) ==> Begins(ItemsOfWords(words))
  {
    hide Sql.Readable, Sql.Spell, Sql.TokensOf, ItemsOfWord, TokensOfWord, WordText, Letters, InLayer2;
    if words == [] {
      Nothing();
      NoLetters();
    } else {
      assert words[0] in words && forall w | w in words[1..] :: w in words;
      assert forall i | 0 <= i < |words[1..]| - 1 :: words[1..][i] == words[i + 1];
      FactsOf(words[0]);
      TextItems(words[1..]);
      if |words| > 1 {
        assert words[1] in words && words[1..][0] == words[1];
        FactsOf(words[1]);
      }
      ReadableAppend(ItemsOfWord(words[0]), ItemsOfWords(words[1..]));
      Sql.TokensAppend(ItemsOfWord(words[0]), ItemsOfWords(words[1..]));
      Sql.LettersAppend(WordText(words[0]), Text(words[1..]));
    }
  }

  lemma {:induction false} JoinsSpread(join: Word, tables: seq<Relation>)
    requires Joining(join) && forall t | t in tables :: InLayer2(t)
    ensures Spread(JoinWords(join, tables)) && (tables != [] ==> JoinWords(join, tables)[0] == join)
  {
    hide InLayer2, Spread;
    if tables == [] {
      SpreadNone();
    } else {
      assert tables[0] in tables && forall t | t in tables[1..] :: t in tables;
      JoinsSpread(join, tables[1..]);
      SpreadJoin(join, tables[0], JoinWords(join, tables[1..]));
    }
  }

  lemma SpreadNone()
    ensures Spread([])
  {}

  lemma SpreadJoin(join: Word, table: Relation, more: seq<Word>)
    requires Joining(join) && InLayer2(table) && Spread(more)
    ensures Spread([join, Word.Named(table), UsingPgc] + more)
  {
    hide InLayer2;
  }

  lemma {:induction false} OthersInLayer2(names: seq<Relation>, driving: Relation)
    requires forall n | n in names :: InLayer2(n)
    ensures forall n | n in Others(names, driving) :: InLayer2(n)
  {
    hide InLayer2;
    if names != [] {
      assert names[0] in names && forall n | n in names[1..] :: n in names;
      OthersInLayer2(names[1..], driving);
    }
  }

  lemma ChainSpread(join: Word, first: Relation, rest: seq<Relation>)
    requires Joining(join) && InLayer2(first) && forall t | t in rest :: InLayer2(t)
    ensures Spread([Searches, CrossWord, Word.Named(first)] + JoinWords(join, rest))
  {
    hide InLayer2;
    JoinsSpread(join, rest);
  }

  lemma ChainRead(join: Word, first: Relation, rest: seq<Relation>)
    requires Joining(join) && InLayer2(first) && forall t | t in rest :: InLayer2(t)
    ensures var words := [Searches, CrossWord, Word.Named(first)] + JoinWords(join, rest);
      ReadWords(TokensOfWords(words)) == Some(words)
  {
    hide InLayer2, ReadWords, TokensOfWord, JoinWords, TokensOfWords;
    var more, name := JoinWords(join, rest), Word.Named(first);
    JoinsRead(join, rest);
    TokensOn(name, more);
    TokensOn(CrossWord, [name] + more);
    TokensOn(Searches, [CrossWord] + ([name] + more));
    ReadName(first, TokensOfWords(more));
    ReadOn(CrossWord, TokensOfWords([name] + more));
    ReadOn(Searches, TokensOfWords([CrossWord] + ([name] + more)));
    assert [Searches] + ([CrossWord] + ([name] + more)) == [Searches, CrossWord, name] + more;
  }

  lemma OrderInLayer2(driving: Option<Relation>, names: seq<Relation>)
    requires names != [] && (forall n | n in names :: InLayer2(n)) && (driving.Some? ==> InLayer2(driving.value))
    ensures forall n | n in FromOrder(driving, names) :: InLayer2(n)
  {
    hide InLayer2;
    if driving.Some? {
      OthersInLayer2(names, driving.value);
    }
  }

  /** The characters of the FROM clause are read as its words, and mean the joins of the plan. */
  lemma FromTextMeans(contents: Contents, values: seq<SearchRow>, driving: Option<Relation>, names: seq<Relation>)
    requires names != [] && (forall n | n in names :: InLayer2(n)) && (driving.Some? ==> InLayer2(driving.value))
    ensures var read := ReadFrom(Letters(Text(FromWords(driving, names))));
      read.Some? && EvalFrom(contents, values, read.value) == Rows(Emitted(contents, values, driving, names))
  {
    hide InLayer2, ReadWords, Sql.Lex, Sql.Readable, Sql.Spell, Sql.TokensOf, Text, Letters, EvalFrom, Emitted, JoinWords;
    var words, order := FromWords(driving, names), FromOrder(driving, names);
    OrderInLayer2(driving, names);
    assert order[0] in order && forall n | n in order[1..] :: n in order;
    ChainSpread(JoinWord(driving), order[0], order[1..]);
    ChainRead(JoinWord(driving), order[0], order[1..]);
    TextItems(words);
    Sql.LexSpelled(ItemsOfWords(words));
    FromMeansEmitted(contents, values, driving, names);
  }
}

/** The column list of a query read as the database reads it, from its characters on. */
module SelectTexts {
  import opened Collections
  import opened Filters
  import opened Binding
  import BatchQuery
  import Columns
  import Sql
  import opened QueryTexts
  import opened WhereTexts
  import opened FromTexts

  // ---- Reading ----

  /** The parts between the commas; there is always one. */
  function Split(ts: seq<Sql.Token>): (parts: seq<seq<Sql.Token>>)
    ensures parts != []
  {
    if ts == [] then [[]] else
      var rest := Split(ts[1..]);
      if ts[0].Comma? then [[]] + rest else [[ts[0]] + rest[0]] + rest[1..]
  }

  function ParseEach(parts: seq<seq<Sql.Token>>): Option<seq<Sql.Selected>> {
    if parts == [] then Some([]) else
      var front, last := ParseEach(parts[..|parts| - 1]), Sql.ParseSelected(parts[|parts| - 1]);
      if front.None? || last.None? then Option.None else Some(front.value + [last.value])
  }

  function ReadColumns(ps: seq<Piece>): Option<seq<Sql.Selected>> {
    var ts := Sql.Lex(ps);
    if ts.None? then Option.None else ParseEach(Split(ts.value))
  }

  // ---- The columns in tokens ----

  /** The names can be written as they stand, the label between quotes. */
  predicate Selectable(item: Columns.Item) {
    && InLayer2(item.table) && Sql.Lacks(Columns.LabelOf(item), '"')
    && (item.KeyItem? ==> PlainWord(item.key) && item.key != "pgc")
  }

  predicate AllSelectable(items: seq<Columns.Item>) {
    forall item | item in items :: Selectable(item)
  }

  function SelectedIn(item: Columns.Item): Sql.Selected {
    SelectedOf(item, NameOf(item.table))
  }

  function TokensOfItem(item: Columns.Item): seq<Sql.Token> {
    Sql.PrintSelected(SelectedIn(item))
  }

  function TokensOfList(items: seq<Columns.Item>): seq<Sql.Token> {
    if items == [] then []
    else if |items| == 1 then TokensOfItem(items[0])
    else TokensOfList(items[..|items| - 1]) + ([Sql.Comma] + TokensOfItem(items[|items| - 1]))
  }

  /** The list is written without a blank after a comma. */
  function ItemsOfList(items: seq<Columns.Item>): seq<Sql.Item> {
    if items == [] then []
    else if |items| == 1 then Sql.Layout(TokensOfItem(items[0]))
    else ItemsOfList(items[..|items| - 1]) + ([Sql.Tok(Sql.Comma)] + Sql.Layout(TokensOfItem(items[|items| - 1])))
  }

  function SelectedList(items: seq<Columns.Item>): seq<Sql.Selected> {
    seq(|items|, i requires 0 <= i < |items| => SelectedIn(items[i]))
  }

  predicate NoComma(ts: seq<Sql.Token>) {
    forall t | t in ts :: !t.Comma?
  }

  lemma {:induction false} NameHasNoComma(path: seq<string>)
    ensures NoComma(Sql.PrintName(path))
  {
    if |path| > 1 {
      NameHasNoComma(path[1..]);
    }
  }

  lemma PathHasNoComma(path: seq<string>)
    ensures NoComma(Sql.PrintExpr(Sql.Name(path)))
  {
    Sql.PrintsAlike(Sql.Name(path));
    NameHasNoComma(path);
  }

  lemma ItemHasNoComma(item: Columns.Item)
    ensures NoComma(TokensOfItem(item))
  {
    var table := NameOf(item.table);
    PathHasNoComma(["true"]);
    PathHasNoComma(["false"]);
    PathHasNoComma(["layer2", table, if item.KeyItem? then item.key else "pgc"]);
    hide Sql.PrintExpr;
  }

  lemma {:induction false} SplitNone(ts: seq<Sql.Token>)
    requires NoComma(ts)
    ensures Split(ts) == [ts]
  {
    if ts != [] {
      assert ts[0] in ts && forall t | t in ts[1..] :: t in ts;
      SplitNone(ts[1..]);
      assert ts == [ts[0]] + ts[1..];
    }
  }

  lemma {:induction false} SplitLast(a: seq<Sql.Token>, b: seq<Sql.Token>)
    requires NoComma(b)
    ensures Split(a + ([Sql.Comma] + b)) == Split(a) + [b]
  {
    if a == [] {
      assert a + ([Sql.Comma] + b) == [Sql.Comma] + b && ([Sql.Comma] + b)[1..] == b;
      SplitNone(b);
    } else {
      assert (a + ([Sql.Comma] + b))[1..] == a[1..] + ([Sql.Comma] + b);
      SplitLast(a[1..], b);
    }
  }

  lemma OnePart(part: seq<Sql.Token>, s: Sql.Selected)
    requires Sql.ParseSelected(part) == Some(s)
    ensures ParseEach([part]) == Some([s])
  {
    hide Sql.ParseSelected;
    assert [part][..0] == [] && ParseEach([]) == Some([]);
    assert [] + [s] == [s];
  }

  lemma {:induction false} ListParsed(items: seq<Columns.Item>)
    requires items != [] && forall item | item in items :: Sql.ParseSelected(TokensOfItem(item)) == Some(SelectedIn(item))
    ensures ParseEach(Split(TokensOfList(items))) == Some(SelectedList(items))
  {
    hide Sql.ParseSelected, TokensOfItem, SelectedIn, Split;
    var last := items[|items| - 1];
    assert last in items;
    ItemHasNoComma(last);
    if |items| == 1 {
      SplitNone(TokensOfItem(last));
      OnePart(TokensOfItem(last), SelectedIn(last));
      assert SelectedList(items) == [SelectedIn(last)];
    } else {
      var front := items[..|items| - 1];
      assert forall item | item in front :: item in items;
      ListParsed(front);
      SplitLast(TokensOfList(front), TokensOfItem(last));
      var parts := Split(TokensOfList(front)) + [TokensOfItem(last)];
      assert parts[..|parts| - 1] == Split(TokensOfList(front));
      assert SelectedList(items) == SelectedList(front) + [SelectedIn(last)];
    }
  }

  // ---- From characters to tokens ----

  lemma ItemRead(item: Columns.Item)
    requires Selectable(item)
    ensures ItemIsRead(item, NameOf(item.table))
  {
    hide Sql.Lacks, PlainWord, ItemIsRead;
    NameFacts(item.table);
    if item.KeyItem? {
      KeyItemText(item, NameOf(item.table));
    } else {
      PresentItemText(item, NameOf(item.table));
    }
  }

  lemma ItemLaidOut(item: Columns.Item)
    requires Selectable(item)
    ensures var laid := Sql.Layout(TokensOfItem(item));
      && Sql.Spell(laid) == Letters(Columns.ItemText(item)) && Sql.TokensOf(laid) == TokensOfItem(item)
      && Sql.Readable(laid) && laid != []
    ensures Sql.ParseSelected(TokensOfItem(item)) == Some(SelectedIn(item))
  {
    hide Sql.Legible, Sql.PrintSelected, Sql.ParseSelected, Letters, Sql.Spell, Sql.TokensOf, Sql.Readable,
      Sql.Lacks, PlainWord;
    ItemRead(item);
    Sql.LayoutReadable(TokensOfItem(item));
    Sql.LayoutTokens(TokensOfItem(item));
    PrintedSomething(SelectedIn(item));
    Sql.FirstOfLayout(TokensOfItem(item));
  }

  lemma PrintedSomething(s: Sql.Selected)
    ensures Sql.PrintSelected(s) != []
  {}

  lemma CommaFacts()
    ensures var comma := [Sql.Tok(Sql.Comma)];
      Sql.Spell(comma) == Letters(",") && Sql.TokensOf(comma) == [Sql.Comma] && Sql.Readable(comma)
    ensures Begins([Sql.Tok(Sql.Comma)]) && Finishes([Sql.Tok(Sql.Comma)])
  {
    assert [Sql.Tok(Sql.Comma)][1..] == [] && Sql.Spell([]) == [] && Sql.TokensOf([]) == [] && Sql.Readable([]);
    assert Letters("") == [];
  }

  lemma {:induction false} ListItems(items: seq<Columns.Item>)
    requires AllSelectable(items) && items != []
    ensures Sql.Readable(ItemsOfList(items))
    ensures Sql.Spell(ItemsOfList(items)) == Letters(BatchQuery.JoinStrings(",", Columns.Texts(items)))
    ensures Sql.TokensOf(ItemsOfList(items)) == TokensOfList(items)
  {
    hide Sql.Readable, Sql.Spell, Sql.TokensOf, Sql.Layout, TokensOfItem, Letters, Columns.ItemText, Selectable;
    var front, last := items[..|items| - 1], items[|items| - 1];
    assert last in items && forall item | item in front :: item in items;
    ItemLaidOut(last);
    TextsSize(items);
    if |items| > 1 {
      ListItems(front);
      TextsSize(front);
      CommaFacts();
      hide Begins, Finishes;
      var laid, comma := Sql.Layout(TokensOfItem(last)), [Sql.Tok(Sql.Comma)];
      ReadableAppend(comma, laid);
      CommaBegins(laid);
      ReadableAppend(ItemsOfList(front), comma + laid);
      Sql.TokensAppend(comma, laid);
      Sql.TokensAppend(ItemsOfList(front), comma + laid);
      Sql.LettersAppend(",", Columns.ItemText(last));
      Sql.LettersAppend(BatchQuery.JoinStrings(",", Columns.Texts(front)), "," + Columns.ItemText(last));
    }
  }

  lemma CommaBegins(laid: seq<Sql.Item>)
    ensures Begins([Sql.Tok(Sql.Comma)] + laid)
  {}

  lemma {:induction false} TextsSize(items: seq<Columns.Item>)
    ensures |Columns.Texts(items)| == |items|
    ensures items != [] ==>
      var texts := Columns.Texts(items);
      texts[|items| - 1] == Columns.ItemText(items[|items| - 1]) &&
      texts[..|items| - 1] == Columns.Texts(items[..|items| - 1])
  {
    if items != [] {
      TextsSize(items[..|items| - 1]);
    }
  }

  /** The column list is read as one column for each item, in order, with the item's label and the cell's value. */
  lemma ColumnListMeans(db: Predicates, views: seq<BatchQuery.View>, row: Joined)
    requires views != [] && AllSelectable(Columns.ItemsOf(views))
    ensures var items := Columns.ItemsOf(views);
      var read := ReadColumns(Letters(BatchQuery.JoinStrings(",", BatchQuery.ColumnTexts(views))));
      && read.Some? && |read.value| == |items|
      && forall i | 0 <= i < |items| ::
           && read.value[i].text == Columns.LabelOf(items[i])
           && EvalSelected(db, read.value[i], row) == CellDatum(Columns.CellOf(items[i], row))
  {
    hide Sql.Lex, Sql.Readable, Sql.Spell, Sql.TokensOf, Letters, ParseEach, Split, TokensOfList, ItemsOfList;
    hide Columns.LabelOf, Columns.CellOf, EvalSelected, Columns.ItemText, BatchQuery.JoinStrings, SelectedOf;
    var items := Columns.ItemsOf(views);
    ItemsPresent(views);
    Columns.ItemsAreColumns(views);
    ListItems(items);
    Sql.LexSpelled(ItemsOfList(items));
    forall item | item in items ensures Sql.ParseSelected(TokensOfItem(item)) == Some(SelectedIn(item)) {
      ItemLaidOut(item);
    }
    ListParsed(items);
    forall i | 0 <= i < |items|
      ensures SelectedIn(items[i]).text == Columns.LabelOf(items[i])
      ensures EvalSelected(db, SelectedIn(items[i]), row) == CellDatum(Columns.CellOf(items[i], row))
    {
      assert items[i] in items;
      NameFacts(items[i].table);
      ItemTextMeans(db, items[i], NameOf(items[i].table), row);
    }
  }

  lemma ItemsPresent(views: seq<BatchQuery.View>)
    requires views != []
    ensures Columns.ItemsOf(views) != []
  {}
}

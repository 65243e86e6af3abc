/** A whole batch query: the clauses that its text consists of, and what each is read as. */
module WholeQuery {
  import opened Collections
  import opened Filters
  import opened Binding
  import Rendering
  import FilterText
  import QueryPlan
  import BatchQuery
  import FromClause
  import Columns
  import Sql
  import opened SqlMeaning
  import LeafTexts
  import opened QueryTexts
  import opened WhereTexts
  import opened FromTexts
  import opened SelectTexts
  import opened ValueTexts
  import AnswerPages

  datatype Clauses = Clauses(
    values: seq<Piece>, columns: seq<Piece>, from: seq<Piece>, where: seq<Piece>, order: seq<Piece>, page: seq<Piece>)

  /** The statement around the clauses. */
  function Statement(c: Clauses): seq<Piece> {
    Letters("WITH search_params AS (SELECT * FROM (VALUES ") + (c.values
      + (Letters(") AS t(record_id, search_type, params)) " + "SELECT sp.record_id, pgc, ") + (c.columns
      + (Letters(" FROM ") + (c.from
      + (Letters(" WHERE ") + (c.where + (Letters(" ") + (c.order + c.page)))))))))
  }

  function ClausesOf(views: seq<BatchQuery.View>, types: seq<Search>, values: seq<SearchRow>, limit: int, offset: int,
                     ordering: Option<BatchQuery.Ordering>): Clauses
    requires views != []
  {
    BatchQuery.NamesOf(views);
    Clauses(
      BatchQuery.LinesPieces(values),
      Letters(BatchQuery.JoinStrings(",", BatchQuery.ColumnTexts(views))),
      Letters(FromClause.Text(FromClause.FromWords(QueryDriving(types), BatchQuery.TableNames(views)))),
      FilterText.Pieces(BatchQuery.WhereWords(types)),
      BatchQuery.OrderPieces(ordering),
      BatchQuery.PagePieces(limit, offset))
  }

  lemma AliasIs()
    ensures BatchQuery.AFTER_VALUES == ") AS t(record_id, search_type, params)) " + "SELECT sp.record_id, pgc, "
  {}

  /** The query that is sent, every value in place, is the statement made of its clauses. */
  lemma QueryIsStatement(views: seq<BatchQuery.View>, types: seq<Search>, values: seq<SearchRow>, limit: int, offset: int,
                         ordering: Option<BatchQuery.Ordering>)
    requires views != []
    ensures BatchQuery.QueryPieces(views, types, values, limit, offset, ordering) ==
      Statement(ClausesOf(views, types, values, limit, offset, ordering))
  {
    BatchQuery.NamesOf(views);
    BatchQuery.HeadText();
    AliasIs();
    hide Letters, BatchQuery.LinesPieces, FilterText.Pieces, BatchQuery.OrderPieces, BatchQuery.PagePieces;
    var c := ClausesOf(views, types, values, limit, offset, ordering);
    var columns := BatchQuery.JoinStrings(",", BatchQuery.ColumnTexts(views));
    var joined := BatchQuery.JoinedTables(QueryDriving(types), BatchQuery.TableNames(views));
    var from := FromClause.Text(FromClause.FromWords(QueryDriving(types), BatchQuery.TableNames(views)));
    FromClause.FromTextIsWords(QueryDriving(types), BatchQuery.TableNames(views));
    MiddleLetters(BatchQuery.AFTER_VALUES, columns, BatchQuery.FROM_HEAD, joined, from, " FROM ", " WHERE ");
    hide BatchQuery.JoinStrings, BatchQuery.JoinedTables, FromClause.Text;
    StatementRegroup(Letters(BatchQuery.AFTER_VALUES), c.columns, Letters(" FROM "), c.from, Letters(" WHERE "),
      c.where + (Letters(" ") + (c.order + c.page)));
  }

  lemma MiddleLetters(alias: string, columns: string, head: string, joined: string, from: string, word: string,
                      where: string)
    requires head + joined == word + from
    ensures Letters(alias + (columns + (head + (joined + where)))) ==
      Letters(alias) + (Letters(columns) + (Letters(word) + (Letters(from) + Letters(where))))
  {
    hide Letters;
    Sql.LeftGroup(head, joined, where);
    Sql.LeftGroup(word, from, where);
    assert head + (joined + where) == word + (from + where);
    Sql.LettersAppend(from, where);
    Sql.LettersAppend(word, from + where);
    Sql.LettersAppend(columns, word + (from + where));
    Sql.LettersAppend(alias, columns + (word + (from + where)));
  }

  lemma StatementRegroup<T>(alias: seq<T>, columns: seq<T>, word: seq<T>, from: seq<T>, where: seq<T>, rest: seq<T>)
    ensures (alias + (columns + (word + (from + where)))) + rest == alias + (columns + (word + (from + (where + rest))))
  {}

  // ---- What the clauses are read as ----

  /** Each search is a line of its own values, under the names that the rest of the query uses. */
  predicate ValuesRead(values: seq<SearchRow>, ps: seq<Piece>) {
    var read := ReadLines(ps);
    read.Some? && |read.value| == |values| && forall i | 0 <= i < |values| :: IsLineOf(values[i], read.value[i])
  }

  /** Each column has its label, and on the row the value of its cell. */
  ghost predicate ColumnsRead(db: Predicates, items: seq<Columns.Item>, row: Joined, ps: seq<Piece>) {
    var read := ReadColumns(ps);
    && read.Some? && |read.value| == |items|
    && forall i | 0 <= i < |items| ::
         && read.value[i].text == Columns.LabelOf(items[i])
         && EvalSelected(db, read.value[i], row) == CellDatum(Columns.CellOf(items[i], row))
  }

  /** The tables are joined as the plan says. */
  predicate TablesRead(contents: QueryPlan.Contents, values: seq<SearchRow>, driving: Option<Relation>, names: seq<Relation>,
                       ps: seq<Piece>)
    requires names != []
  {
    var read := ReadFrom(ps);
    && read.Some?
    && FromClause.EvalFrom(contents, values, read.value) ==
         FromClause.Rows(QueryPlan.Emitted(contents, values, driving, names))
  }

  /** The condition has on the row the value that the searches give it, unless a list of objects is empty. */
  predicate ConditionRead(db: Predicates, types: seq<Search>, row: Joined, ps: seq<Piece>)
    requires types != []
  {
    var read := ReadWhere(ps);
    && (read.Some? <==> Rendering.AllWritable(types))
    && (read.Some? ==> EvalLogic(db, read.value, row) == Some(Rendering.EvalText(db, types, row)))
  }

  /** Rows are sorted by their distance from the centre, then by number; or there is no ordering. */
  predicate OrderRead(db: Predicates, ordering: Option<BatchQuery.Ordering>, a: Joined, b: Joined, ps: seq<Piece>) {
    if ordering.None? then ps == [] else
      var read := Sql.ReadOrder(ps);
      && read.Some?
      && (AnswerPages.NotAfter(AnswerPages.KeysOf(db, read.value, a), AnswerPages.KeysOf(db, read.value, b)) <==>
            AnswerPages.Before(AnswerPages.DistanceFrom(db, ordering.value.ra, ordering.value.dec), a, b))
  }

  // ---- Tables ----

  lemma {:induction false} DrivingInLayer2(f: Filter)
    ensures DrivingTable(f).Some? ==> InLayer2(DrivingTable(f).value)
    decreases f, 0
  {
    hide InLayer2;
    match f
    case And(fs) => FirstInLayer2(fs);
    case Or(fs) =>
      if fs != [] {
        DrivingInLayer2(fs[0]);
      }
    case _ => LeafTables();
  }

  lemma {:induction false} FirstInLayer2(fs: seq<Filter>)
    ensures FirstDriving(fs).Some? ==> InLayer2(FirstDriving(fs).value)
    decreases fs, 0
  {
    hide InLayer2;
    if fs != [] {
      DrivingInLayer2(fs[0]);
      FirstInLayer2(fs[1..]);
    }
  }

  lemma LeafTables()
    ensures InLayer2(DESIGNATION) && InLayer2(DESIGNATIONS) && InLayer2(ICRS)
  {
    DesignationTables();
    assert "layer2.icrs"[7..] == "icrs" && "layer2.icrs"[..7] == "layer2.";
    LeafTexts.LowerIsNoKeyword("icrs");
  }

  lemma DesignationTables()
    ensures InLayer2(DESIGNATION) && InLayer2(DESIGNATIONS)
  {
    assert "layer2.designation"[7..] == "designation" && "layer2.designation"[..7] == "layer2.";
    assert "layer2.designations"[7..] == "designations" && "layer2.designations"[..7] == "layer2.";
    LeafTexts.LowerIsNoKeyword("designation");
    LeafTexts.LowerIsNoKeyword("designations");
  }

  lemma {:induction false} TablesInLayer2(views: seq<BatchQuery.View>)
    requires forall v | v in views :: InLayer2(v.table)
    ensures forall n | n in BatchQuery.TableNames(views) :: InLayer2(n)
  {
    hide InLayer2;
    if views != [] {
      assert views[|views| - 1] in views && forall v | v in views[..|views| - 1] :: v in views;
      TablesInLayer2(views[..|views| - 1]);
    }
  }

  // ---- The main result ----

  /** The names in the query can be written as they stand. */
  predicate Writable(views: seq<BatchQuery.View>, types: seq<Search>) {
    AllSelectable(Columns.ItemsOf(views)) && Named(types) && forall v | v in views :: InLayer2(v.table)
  }

  /** The text of a query with every value in place, clause by clause, is read as what the query is for. */
  lemma QueryMeans(db: Predicates, contents: QueryPlan.Contents, views: seq<BatchQuery.View>, types: seq<Search>,
                   values: seq<SearchRow>, limit: int, offset: int, ordering: Option<BatchQuery.Ordering>,
                   row: Joined, other: Joined)
    requires views != [] && types != [] && values != []
    requires Writable(views, types)
    ensures var c := ClausesOf(views, types, values, limit, offset, ordering);
      var names := BatchQuery.TableNames(views);
      && BatchQuery.QueryPieces(views, types, values, limit, offset, ordering) == Statement(c)
      && ValuesRead(values, c.values)
      && ColumnsRead(db, Columns.ItemsOf(views), row, c.columns)
      && names != [] && TablesRead(contents, values, QueryDriving(types), names, c.from)
      && ConditionRead(db, types, row, c.where)
      && OrderRead(db, ordering, row, other, c.order)
      && Sql.ReadPage(c.page) == Some((OfInt(limit), OfInt(offset)))
  {
    BatchQuery.NamesOf(views);
    hide ReadLines, ReadColumns, ReadFrom, ReadWhere, Sql.ReadOrder, Sql.ReadPage, InLayer2, Letters, Statement;
    hide BatchQuery.LinesPieces, FilterText.Pieces, BatchQuery.PagePieces, BatchQuery.OrderPieces;
    hide AllSelectable, Named, Rendering.AllWritable, EvalSelected, FromClause.FromWords, FromClause.Text,
      BatchQuery.JoinStrings;
    QueryIsStatement(views, types, values, limit, offset, ordering);
    LinesMean(values);
    ColumnListMeans(db, views, row);
    TablesInLayer2(views);
    DrivingInLayer2(Or(FiltersOf(types)));
    FromTextMeans(contents, values, QueryDriving(types), BatchQuery.TableNames(views));
    WhereTextMeans(db, types, row);
    PageMeans(limit, offset);
    if ordering.Some? {
      AnswerPages.OrderIsBefore(db, ordering.value.ra, ordering.value.dec, row, other);
    } else {
      NoOrder();
    }
  }

  lemma NoOrder()
    ensures BatchQuery.OrderPieces(Option.None) == []
  {}
}

/** Assembly of a batch query's text and of its positional parameters. */
module BatchQuery {
  import opened Collections
  import opened Filters
  import opened Rendering
  import opened Binding
  import opened FilterText
  import opened QueryPlan

  /** A requested catalog: its name, its layer-2 table and that table's columns. */
  datatype View = View(catalog: string, table: Relation, keys: seq<string>)

  datatype Ordering = DistanceTo(ra: real, dec: real)

  function JoinStrings(separator: string, parts: seq<string>): string {
    if parts == [] then ""
    else if |parts| == 1 then parts[0]
    else JoinStrings(separator, parts[..|parts| - 1]) + (separator + parts[|parts| - 1])
  }

  const NOTHING: string := "SELECT NULL as record_id, " + "NULL as pgc WHERE FALSE"
  const HEAD: string := "WITH search_params AS (" + "SELECT * FROM (VALUES "
  const AFTER_VALUES: string := ") AS t(record_id, search_type, params)) " + "SELECT sp.record_id, pgc, "
  const FROM_HEAD: string := " FROM " + ("search_params sp" + " CROSS JOIN ")
  const VALUE_LINE: string := "(" + ("%s" + (", " + ("%s" + (", " + ("%s" + "::jsonb)")))))
  const PRESENT: string := ".pgc IS NOT NULL THEN true " + "ELSE false END AS \""
  const ORDER_HEAD: string := "ORDER BY ST_Distance(ST_MakePoint("
  const ORDER_TAIL: string :=
    ")::geography, " + ("ST_MakePoint(layer2.icrs.ra, " + "layer2.icrs.dec)::geography, false), pgc")

  function ColumnText(v: View, key: string): string {
    v.table + ("." + (key + (" AS \"" + (v.catalog + ("|" + (key + "\""))))))
  }

  function PresenceText(v: View): string {
    "CASE WHEN " + (v.table + (PRESENT + (v.catalog + "|_present\"")))
  }

  function KeyTexts(v: View, keys: seq<string>): seq<string> {
    if keys == [] then [] else [ColumnText(v, keys[0])] + KeyTexts(v, keys[1..])
  }

  function ColumnTexts(views: seq<View>): seq<string> {
    if views == [] then [] else
      var last := views[|views| - 1];
      ColumnTexts(views[..|views| - 1]) + (KeyTexts(last, last.keys) + [PresenceText(last)])
  }

  function TableNames(views: seq<View>): seq<Relation> {
    if views == [] then [] else TableNames(views[..|views| - 1]) + [views[|views| - 1].table]
  }

  function Using(tables: seq<Relation>): seq<string> {
    if tables == [] then [] else [tables[0] + " USING (pgc)"] + Using(tables[1..])
  }

  /** The text that `Emitted` is the meaning of. */
  function JoinedTables(driving: Option<Relation>, names: seq<Relation>): string
    requires driving.Some? || names != []
  {
    var order := FromOrder(driving, names);
    JoinStrings(if driving.Some? then " LEFT JOIN " else " FULL JOIN ", [order[0]] + Using(order[1..]))
  }

  function WhereWords(types: seq<Search>): seq<Token> {
    if types == [] then [] else WhereText(types)
  }

  function LinePieces(v: SearchRow): seq<Piece> {
    Letters("(") + ([Hole(OfText(v.recordId))] + (Letters(", ") + ([Hole(OfText(v.searchType))]
      + (Letters(", ") + ([Hole(OfJson(v.params))] + Letters("::jsonb)"))))))
  }

  function LinesPieces(values: seq<SearchRow>): seq<Piece> {
    if values == [] then []
    else if |values| == 1 then LinePieces(values[0])
    else LinesPieces(values[..|values| - 1]) + (Letters(",") + LinePieces(values[|values| - 1]))
  }

  function OrderPieces(ordering: Option<Ordering>): seq<Piece> {
    if ordering.None? then [] else
      Letters(ORDER_HEAD) + ([Hole(OfReal(ordering.value.ra))] + (Letters(", ")
        + ([Hole(OfReal(ordering.value.dec))] + Letters(ORDER_TAIL))))
  }

  function Middle(views: seq<View>, types: seq<Search>): string
    requires views != []
  {
    NamesOf(views);
    AFTER_VALUES + (JoinStrings(",", ColumnTexts(views))
      + (FROM_HEAD + (JoinedTables(QueryDriving(types), TableNames(views)) + " WHERE ")))
  }

  lemma NamesOf(views: seq<View>)
    ensures |TableNames(views)| == |views|
  {
  }

  /** The query with every value where it belongs: each search's own, each filter's own, the centre, the page. */
  function QueryPieces(views: seq<View>, types: seq<Search>, values: seq<SearchRow>, limit: int, offset: int,
                       ordering: Option<Ordering>): seq<Piece>
    requires views != []
  {
    Letters(HEAD) + (LinesPieces(values) + (Letters(Middle(views, types)) + (Pieces(WhereWords(types)) + (Letters(" ")
      + (OrderPieces(ordering) + PagePieces(limit, offset))))))
  }

  function PagePieces(limit: int, offset: int): seq<Piece> {
    Letters(" LIMIT ") + ([Hole(OfInt(limit))] + (Letters(" OFFSET ") + [Hole(OfInt(offset))]))
  }

  // ---- Fragments ----

  lemma LineBinds(v: SearchRow)
    ensures Binds(VALUE_LINE, [OfText(v.recordId), OfText(v.searchType), OfJson(v.params)], LinePieces(v))
  {
    hide Binds, Letters;
    var a, b, c := OfText(v.recordId), OfText(v.searchType), OfJson(v.params);
    PlainBinds("::jsonb)");
    PlaceholderThen(c, "::jsonb)", [], Letters("::jsonb)"));
    assert [c] + [] == [c];
    var last := [Hole(c)] + Letters("::jsonb)");
    PlainThen(", ", "%s" + "::jsonb)", [c], last);
    PlaceholderThen(b, ", " + ("%s" + "::jsonb)"), [c], Letters(", ") + last);
    assert [b] + [c] == [b, c];
    PlainThen(", ", "%s" + (", " + ("%s" + "::jsonb)")), [b, c], [Hole(b)] + (Letters(", ") + last));
    PlaceholderThen(a, ", " + ("%s" + (", " + ("%s" + "::jsonb)"))), [b, c],
      Letters(", ") + ([Hole(b)] + (Letters(", ") + last)));
    assert [a] + [b, c] == [a, b, c];
    PlainThen("(", "%s" + (", " + ("%s" + (", " + ("%s" + "::jsonb)")))), [a, b, c],
      [Hole(a)] + (Letters(", ") + ([Hole(b)] + (Letters(", ") + last))));
  }

  /** One more line of values. */
  lemma NextLineBinds(lines: seq<string>, params: seq<Value>, values: seq<SearchRow>, i: nat)
    requires i < |values| && |lines| == i && Binds(JoinStrings(",", lines), params, LinesPieces(values[..i]))
    ensures Binds(JoinStrings(",", lines + [VALUE_LINE]),
      params + [OfText(values[i].recordId), OfText(values[i].searchType), OfJson(values[i].params)],
      LinesPieces(values[..i + 1]))
  {
    hide Binds, Letters, LinePieces;
    var v := values[i];
    var own := [OfText(v.recordId), OfText(v.searchType), OfJson(v.params)];
    LineBinds(v);
    assert values[..i + 1][..i] == values[..i];
    assert (lines + [VALUE_LINE])[..i] == lines;
    if i == 0 {
      NoParameters(params, LinesPieces(values[..0]));
      assert params + own == own;
    } else {
      PlainThen(",", VALUE_LINE, own, LinePieces(v));
      BindsJoin(JoinStrings(",", lines), "," + VALUE_LINE, params, own, LinesPieces(values[..i]),
        Letters(",") + LinePieces(v));
    }
  }

  lemma NoParameters(params: seq<Value>, pieces: seq<Piece>)
    requires Binds("", params, pieces)
    ensures params == []
  {
  }

  predicate PlainView(v: View) {
    Plain(v.catalog) && Plain(v.table) && forall k | k in v.keys :: Plain(k)
  }

  lemma ColumnTextPlain(v: View, key: string)
    requires PlainView(v) && Plain(key)
    ensures Plain(ColumnText(v, key))
  {
    hide Plain;
    ColumnWordsPlain();
    PlainAppend(key, "\"");
    PlainAppend("|", key + "\"");
    PlainAppend(v.catalog, "|" + (key + "\""));
    PlainAppend(" AS \"", v.catalog + ("|" + (key + "\"")));
    PlainAppend(key, " AS \"" + (v.catalog + ("|" + (key + "\""))));
    PlainAppend(".", key + (" AS \"" + (v.catalog + ("|" + (key + "\"")))));
    PlainAppend(v.table, "." + (key + (" AS \"" + (v.catalog + ("|" + (key + "\""))))));
  }

  lemma ColumnWordsPlain()
    ensures Plain("\"") && Plain("|") && Plain(" AS \"") && Plain(".") && Plain("CASE WHEN ") && Plain("|_present\"")
    ensures Plain(",") && Plain(" LEFT JOIN ") && Plain(" FULL JOIN ") && Plain(" USING (pgc)") && Plain(" WHERE ")
    ensures Plain(PRESENT)
  {
    PlainAppend(".pgc IS NOT NULL THEN true ", "ELSE false END AS \"");
  }

  lemma HeadPlain()
    ensures Plain(HEAD) && Plain(AFTER_VALUES) && Plain(FROM_HEAD)
  {
    PlainAppend("WITH search_params AS (", "SELECT * FROM (VALUES ");
    PlainAppend(") AS t(record_id, search_type, params)) ", "SELECT sp.record_id, pgc, ");
  }

  lemma OrderPlain()
    ensures Plain(ORDER_HEAD) && Plain(ORDER_TAIL)
  {
    PlainAppend("ST_MakePoint(layer2.icrs.ra, ", "layer2.icrs.dec)::geography, false), pgc");
    PlainAppend(")::geography, ", "ST_MakePoint(layer2.icrs.ra, " + "layer2.icrs.dec)::geography, false), pgc");
  }

  lemma PageWordsPlain()
    ensures Plain(" ") && Plain(" LIMIT ") && Plain(" OFFSET ") && Plain(", ")
  {
  }

  lemma PresenceTextPlain(v: View)
    requires PlainView(v)
    ensures Plain(PresenceText(v))
  {
    hide Plain;
    ColumnWordsPlain();
    PlainAppend(v.catalog, "|_present\"");
    PlainAppend(PRESENT, v.catalog + "|_present\"");
    PlainAppend(v.table, PRESENT + (v.catalog + "|_present\""));
    PlainAppend("CASE WHEN ", v.table + (PRESENT + (v.catalog + "|_present\"")));
  }

  ghost predicate AllPlain(parts: seq<string>) {
    forall p | p in parts :: Plain(p)
  }

  lemma {:induction false} JoinPlain(separator: string, parts: seq<string>)
    requires Plain(separator) && AllPlain(parts)
    ensures Plain(JoinStrings(separator, parts))
  {
    if |parts| > 1 {
      var n := |parts| - 1;
      assert AllPlain(parts[..n]);
      JoinPlain(separator, parts[..n]);
      assert parts[n] in parts;
      PlainAppend(separator, parts[n]);
      PlainAppend(JoinStrings(separator, parts[..n]), separator + parts[n]);
    } else if |parts| == 1 {
      assert parts[0] in parts;
    }
  }

  lemma {:induction false} KeyTextsPlain(v: View, keys: seq<string>)
    requires PlainView(v) && forall k | k in keys :: k in v.keys
    ensures AllPlain(KeyTexts(v, keys))
  {
    if keys != [] {
      assert keys[0] in keys;
      ColumnTextPlain(v, keys[0]);
      KeyTextsPlain(v, keys[1..]);
    }
  }

  lemma {:induction false} ColumnTextsPlain(views: seq<View>)
    requires forall v | v in views :: PlainView(v)
    ensures AllPlain(ColumnTexts(views)) && AllPlain(TableNames(views))
  {
    if views != [] {
      var n := |views| - 1;
      assert views[n] in views;
      assert forall v | v in views[..n] :: v in views;
      ColumnTextsPlain(views[..n]);
      KeyTextsPlain(views[n], views[n].keys);
      PresenceTextPlain(views[n]);
    }
  }

  lemma {:induction false} UsingPlain(tables: seq<Relation>)
    requires AllPlain(tables)
    ensures AllPlain(Using(tables))
  {
    if tables != [] {
      assert tables[0] in tables;
      assert forall t | t in tables[1..] :: t in tables;
      ColumnWordsPlain();
      PlainAppend(tables[0], " USING (pgc)");
      UsingPlain(tables[1..]);
    }
  }

  lemma {:induction false} OthersPlain(names: seq<Relation>, driving: Relation)
    requires AllPlain(names)
    ensures AllPlain(Others(names, driving))
  {
    if names != [] {
      assert names[0] in names;
      assert forall t | t in names[1..] :: t in names;
      OthersPlain(names[1..], driving);
    }
  }

  lemma {:induction false} DrivingIsKnown(fs: seq<Filter>)
    ensures forall f | f in fs :: DrivingTable(f) in {None, Some(ICRS), Some(DESIGNATION), Some(DESIGNATIONS)}
    ensures FirstDriving(fs) in {None, Some(ICRS), Some(DESIGNATION), Some(DESIGNATIONS)}
  {
    if fs != [] {
      DrivingIsKnown(fs[1..]);
      match fs[0]
      case And(gs) => DrivingIsKnown(gs);
      case Or(gs) => DrivingIsKnown(gs);
      case _ =>
    }
  }

  lemma QueryDrivingPlain(types: seq<Search>)
    ensures QueryDriving(types).Some? ==> Plain(QueryDriving(types).value)
  {
    DrivingIsKnown([Or(FiltersOf(types))]);
    assert Or(FiltersOf(types)) in [Or(FiltersOf(types))];
    assert Plain(ICRS) && Plain(DESIGNATION) && Plain(DESIGNATIONS);
  }

  lemma JoinedTablesPlain(driving: Option<Relation>, names: seq<Relation>)
    requires AllPlain(names) && (driving.Some? || names != []) && (driving.Some? ==> Plain(driving.value))
    ensures Plain(JoinedTables(driving, names))
  {
    hide Plain;
    var order := FromOrder(driving, names);
    ColumnWordsPlain();
    if driving.Some? {
      OthersPlain(names, driving.value);
    }
    assert AllPlain(order);
    assert order[0] in order;
    UsingPlain(order[1..]);
    JoinPlain(if driving.Some? then " LEFT JOIN " else " FULL JOIN ", [order[0]] + Using(order[1..]));
  }

  lemma MiddlePlain(views: seq<View>, types: seq<Search>)
    requires views != [] && forall v | v in views :: PlainView(v)
    ensures Plain(Middle(views, types))
  {
    hide Plain;
    NamesOf(views);
    var columns, joined := JoinStrings(",", ColumnTexts(views)), JoinedTables(QueryDriving(types), TableNames(views));
    ColumnTextsPlain(views);
    ColumnWordsPlain();
    HeadPlain();
    JoinPlain(",", ColumnTexts(views));
    QueryDrivingPlain(types);
    JoinedTablesPlain(QueryDriving(types), TableNames(views));
    PlainAppend(joined, " WHERE ");
    PlainAppend(FROM_HEAD, joined + " WHERE ");
    PlainAppend(columns, FROM_HEAD + (joined + " WHERE "));
    PlainAppend(AFTER_VALUES, columns + (FROM_HEAD + (joined + " WHERE ")));
  }

  function OrderText(ordering: Option<Ordering>): string {
    if ordering.None? then "" else ORDER_HEAD + ("%s" + (", " + ("%s" + ORDER_TAIL)))
  }

  function OrderValues(ordering: Option<Ordering>): seq<Value> {
    if ordering.None? then [] else [OfReal(ordering.value.ra), OfReal(ordering.value.dec)]
  }

  lemma OrderBinds(ordering: Option<Ordering>)
    ensures Binds(OrderText(ordering), OrderValues(ordering), OrderPieces(ordering))
  {
    hide Letters;
    if ordering.Some? {
      var a, b := OfReal(ordering.value.ra), OfReal(ordering.value.dec);
      OrderPlain();
      PageWordsPlain();
      PlainBinds(ORDER_TAIL);
      PlaceholderThen(b, ORDER_TAIL, [], Letters(ORDER_TAIL));
      assert [b] + [] == [b];
      PlainThen(", ", "%s" + ORDER_TAIL, [b], [Hole(b)] + Letters(ORDER_TAIL));
      PlaceholderThen(a, ", " + ("%s" + ORDER_TAIL), [b], Letters(", ") + ([Hole(b)] + Letters(ORDER_TAIL)));
      assert [a] + [b] == [a, b];
      PlainThen(ORDER_HEAD, "%s" + (", " + ("%s" + ORDER_TAIL)), [a, b],
        [Hole(a)] + (Letters(", ") + ([Hole(b)] + Letters(ORDER_TAIL))));
    }
  }

  const PAGE_TEXT: string := " LIMIT " + ("%s" + (" OFFSET " + "%s"))

  /** Fragments that bind their own values make a query that does. */
  lemma AssembledBinds(head: string, lines: string, middle: string, conditions: string, order: string,
                       v: seq<Value>, w: seq<Value>, o: seq<Value>, limit: int, offset: int,
                       x: seq<Piece>, y: seq<Piece>, z: seq<Piece>)
    requires Plain(head) && Plain(middle) && Binds(lines, v, x) && Binds(conditions, w, y) && Binds(order, o, z)
    ensures Binds(head + (lines + (middle + (conditions + (" " + (order + PAGE_TEXT))))),
      v + (w + (o + [OfInt(limit), OfInt(offset)])),
      Letters(head) + (x + (Letters(middle) + (y + (Letters(" ") + (z
        + (Letters(" LIMIT ") + ([Hole(OfInt(limit))] + (Letters(" OFFSET ") + [Hole(OfInt(offset))])))))))))
  {
    hide Binds, Letters, Plain;
    PageWordsPlain();
    var page := [OfInt(limit), OfInt(offset)];
    var p := Letters(" LIMIT ") + ([Hole(OfInt(limit))] + (Letters(" OFFSET ") + [Hole(OfInt(offset))]));
    TwoPlaceholders(" LIMIT ", OfInt(limit), " OFFSET ", OfInt(offset));
    BindsJoin(order, PAGE_TEXT, o, page, z, p);
    PlainThen(" ", order + PAGE_TEXT, o + page, z + p);
    BindsJoin(conditions, " " + (order + PAGE_TEXT), w, o + page, y, Letters(" ") + (z + p));
    PlainThen(middle, conditions + (" " + (order + PAGE_TEXT)), w + (o + page), y + (Letters(" ") + (z + p)));
    BindsJoin(lines, middle + (conditions + (" " + (order + PAGE_TEXT))), v, w + (o + page), x,
      Letters(middle) + (y + (Letters(" ") + (z + p))));
    PlainThen(head, lines + (middle + (conditions + (" " + (order + PAGE_TEXT)))), v + (w + (o + page)),
      x + (Letters(middle) + (y + (Letters(" ") + (z + p)))));
  }

  // ---- Conditions ----

  function ConditionText(s: Search): string {
    "(" + (("sp.search_type = '" + (s.name + "'")) + (" AND " + (GetQuery(s.filter) + ")")))
  }

  lemma ConditionIsWords(s: Search)
    ensures ConditionText(s) == Text(Condition(s)) && GetParams(s.filter) == Values(Condition(s))
  {
    hide GetQuery, GetParams, Render, Text, Values;
    var test := SearchTypeIs(s.name);
    QueryIsWords(s.filter);
    WordText(Open);
    WordText(test);
    WordText(AndWord);
    WordText(Close);
    assert Condition(s) == [Open] + ([test] + ([AndWord] + (Render(s.filter) + [Close])));
    WordsAppend([Open], [test] + ([AndWord] + (Render(s.filter) + [Close])));
    WordsAppend([test], [AndWord] + (Render(s.filter) + [Close]));
    WordsAppend([AndWord], Render(s.filter) + [Close]);
    WordsAppend(Render(s.filter), [Close]);
    assert [] + ([] + ([] + (GetParams(s.filter) + []))) == GetParams(s.filter);
  }

  lemma {:induction false} MoreConditionsLast(types: seq<Search>, s: Search)
    ensures MoreConditions(types + [s]) == MoreConditions(types) + ([OrWord] + Condition(s))
  {
    hide Condition;
    if types == [] {
      assert MoreConditions([s][1..]) == [];
    } else {
      assert (types + [s])[1..] == types[1..] + [s];
      MoreConditionsLast(types[1..], s);
      Regroup([OrWord] + Condition(types[0]), MoreConditions(types[1..]), [OrWord] + Condition(s));
    }
  }

  lemma WhereWordsNext(types: seq<Search>, i: nat)
    requires i < |types|
    ensures WhereWords(types[..i + 1]) ==
      if i == 0 then Condition(types[0]) else WhereWords(types[..i]) + ([OrWord] + Condition(types[i]))
  {
    hide Condition;
    var s := types[i];
    if i == 0 {
      assert types[..1] == [s] && MoreConditions([s][1..]) == [];
    } else {
      assert types[..i + 1] == types[..i] + [s];
      assert types[..i + 1][1..] == types[..i][1..] + [s];
      MoreConditionsLast(types[..i][1..], s);
      Regroup(Condition(types[0]), MoreConditions(types[..i][1..]), [OrWord] + Condition(s));
    }
  }

  lemma OrConditionWords(s: Search)
    ensures Text([OrWord] + Condition(s)) == " OR " + ConditionText(s)
    ensures Values([OrWord] + Condition(s)) == GetParams(s.filter)
  {
    hide Condition, ConditionText, GetParams, Text, Values;
    ConditionIsWords(s);
    WordsAppend([OrWord], Condition(s));
    WordText(OrWord);
    assert [] + Values(Condition(s)) == Values(Condition(s));
  }

  /** One more condition. */
  lemma NextConditionIsWords(conditions: seq<string>, own: seq<Value>, types: seq<Search>, i: nat)
    requires i < |types| && |conditions| == i
    requires JoinStrings(" OR ", conditions) == Text(WhereWords(types[..i])) && own == Values(WhereWords(types[..i]))
    ensures JoinStrings(" OR ", conditions + [ConditionText(types[i])]) == Text(WhereWords(types[..i + 1]))
    ensures own + GetParams(types[i].filter) == Values(WhereWords(types[..i + 1]))
  {
    hide ConditionText, GetParams, Condition, Text, Values, WhereWords;
    var s := types[i];
    assert (conditions + [ConditionText(s)])[..i] == conditions;
    WhereWordsNext(types, i);
    if i == 0 {
      ConditionIsWords(s);
      NoWords(types);
      assert [] + GetParams(s.filter) == GetParams(s.filter);
    } else {
      OrConditionWords(s);
      WordsAppend(WhereWords(types[..i]), [OrWord] + Condition(s));
    }
  }

  lemma NoWords(types: seq<Search>)
    ensures Values(WhereWords(types[..0])) == [] && Text(WhereWords(types[..0])) == ""
  {
  }

  lemma {:induction false} RenderedProper(f: Filter)
    ensures forall t | t in Render(f) :: Proper(t)
    decreases f, 0
  {
    match f
    case And(fs) => JoinedProper(AndWord, fs);
    case Or(fs) => JoinedProper(OrWord, fs);
    case _ =>
  }

  lemma {:induction false} JoinedProper(word: Token, fs: seq<Filter>)
    requires word == AndWord || word == OrWord
    ensures forall t | t in JoinedBy(word, fs) :: Proper(t)
    decreases fs, 1
  {
    if fs != [] {
      RenderedProper(fs[0]);
      RestProper(word, fs[1..]);
    }
  }

  lemma {:induction false} RestProper(word: Token, fs: seq<Filter>)
    requires word == AndWord || word == OrWord
    ensures forall t | t in Rest(word, fs) :: Proper(t)
    decreases fs, 0
  {
    if fs != [] {
      RenderedProper(fs[0]);
      RestProper(word, fs[1..]);
    }
  }

  lemma ConditionProper(s: Search)
    requires Plain(s.name)
    ensures forall t | t in Condition(s) :: Proper(t)
  {
    RenderedProper(s.filter);
  }

  lemma {:induction false} MoreConditionsProper(types: seq<Search>)
    requires forall s | s in types :: Plain(s.name)
    ensures forall t | t in MoreConditions(types) :: Proper(t)
  {
    if types != [] {
      assert types[0] in types;
      assert forall s | s in types[1..] :: s in types;
      ConditionProper(types[0]);
      MoreConditionsProper(types[1..]);
    }
  }

  lemma WhereBinds(types: seq<Search>)
    requires forall s | s in types :: Plain(s.name)
    ensures Binds(Text(WhereWords(types)), Values(WhereWords(types)), Pieces(WhereWords(types)))
  {
    if types != [] {
      assert types[0] in types;
      assert forall s | s in types[1..] :: s in types;
      ConditionProper(types[0]);
      MoreConditionsProper(types[1..]);
    }
    WordsBind(WhereWords(types));
  }

  // ---- `_construct_batch_query` ----

  function DrivingOf(types: seq<Search>): set<Option<Relation>> {
    set s | s in types :: DrivingTable(s.filter)
  }

  lemma {:induction false} FiltersAre(types: seq<Search>)
    ensures |FiltersOf(types)| == |types|
    ensures forall i | 0 <= i < |types| :: FiltersOf(types)[i] == types[i].filter
  {
    if types != [] {
      FiltersAre(types[1..]);
    }
  }

  lemma PoppedIsDriving(types: seq<Search>)
    ensures PopIfSingle(DrivingOf(types)) == QueryDriving(types)
  {
    var fs := FiltersOf(types);
    FiltersAre(types);
    var answers := set k | 0 <= k < |fs| :: DrivingTable(fs[k]);
    forall t ensures t in answers <==> t in DrivingOf(types) {
      if t in DrivingOf(types) {
        var s :| s in types && t == DrivingTable(s.filter);
        var k :| 0 <= k < |types| && types[k] == s;
        assert DrivingTable(fs[k]) == t;
      }
      if t in answers {
        var k :| 0 <= k < |fs| && DrivingTable(fs[k]) == t;
        assert types[k] in types;
      }
    }
    assert answers == DrivingOf(types);
    OneDrivingTable(fs, answers);
  }

  lemma Prefix<T>(s: seq<T>, i: nat)
    requires i < |s|
    ensures s[..i + 1][..i] == s[..i] && s[..i + 1][i] == s[i] && |s[..i + 1]| == i + 1
  {
  }

  /** The text and the parameters are built apart; bound together, each placeholder receives its own fragment's value. */
  method ConstructBatchQuery(views: seq<View>, types: seq<Search>, values: seq<SearchRow>, limit: int, offset: int,
                             ordering: Option<Ordering>)
    returns (text: string, params: seq<Value>)
    requires views != []
    ensures values == [] ==> text == "SELECT NULL as record_id, NULL as pgc WHERE FALSE" && params == []
    ensures values != [] && (forall v | v in views :: PlainView(v)) && (forall s | s in types :: Plain(s.name)) ==>
      Send(text, params) == Bound(QueryPieces(views, types, values, limit, offset, ordering), [])
  {
    hide Binds, Letters, Text, Values, Pieces, Condition, ConditionText, GetParams, LinesPieces, Plain, JoinedTables,
      OrderPieces;
    if values == [] {
      NothingText();
      return NOTHING, [];
    }

    var lines := [];
    params := [];
    NoLines(values);
    for i := 0 to |values|
      invariant |lines| == i && Binds(JoinStrings(",", lines), params, LinesPieces(values[..i]))
    {
      NextLineBinds(lines, params, values, i);
      lines := lines + [VALUE_LINE];
      params := params + [OfText(values[i].recordId), OfText(values[i].searchType), OfJson(values[i].params)];
    }
    ghost var lineValues := params;

    var columns, tables := [], [];
    for i := 0 to |views|
      invariant columns == ColumnTexts(views[..i]) && tables == TableNames(views[..i])
    {
      Prefix(views, i);
      tables := tables + [views[i].table];
      columns := columns + (KeyTexts(views[i], views[i].keys) + [PresenceText(views[i])]);
    }
    assert views[..|views|] == views;

    var driving := PopIfSingle(DrivingOf(types));
    PoppedIsDriving(types);
    NamesOf(views);
    var joined := JoinedTables(driving, tables);

    var conditions := [];
    ghost var own := [];
    NoWords(types);
    for i := 0 to |types|
      invariant |conditions| == i && JoinStrings(" OR ", conditions) == Text(WhereWords(types[..i]))
      invariant own == Values(WhereWords(types[..i])) && params == lineValues + own
    {
      NextConditionIsWords(conditions, own, types, i);
      var more := CollectParams(types[i].filter);
      conditions := conditions + [ConditionText(types[i])];
      Regroup(lineValues, own, more);
      params := params + more;
      own := own + more;
    }
    assert types[..|types|] == types && values[..|values|] == values;

    params := params + OrderValues(ordering);
    params := params + [OfInt(limit), OfInt(offset)];
    var middle := AFTER_VALUES + (JoinStrings(",", columns) + (FROM_HEAD + (joined + " WHERE ")));
    text := HEAD + (JoinStrings(",", lines)
      + (middle + (JoinStrings(" OR ", conditions) + (" " + (OrderText(ordering) + PAGE_TEXT)))));

    if (forall v | v in views :: PlainView(v)) && forall s | s in types :: Plain(s.name) {
      MiddlePlain(views, types);
      HeadPlain();
      WhereBinds(types);
      OrderBinds(ordering);
      AssembledBinds(HEAD, JoinStrings(",", lines), middle, JoinStrings(" OR ", conditions), OrderText(ordering),
        lineValues, own, OrderValues(ordering), limit, offset, LinesPieces(values), Pieces(WhereWords(types)),
        OrderPieces(ordering));
      RegroupParams(lineValues, own, OrderValues(ordering), [OfInt(limit), OfInt(offset)]);
      assert params[|params| - 1] == OfInt(offset);
      BoundIsSent(text, params, QueryPieces(views, types, values, limit, offset, ordering));
    }
  }

  lemma NothingText()
    ensures NOTHING == "SELECT NULL as record_id, NULL as pgc WHERE FALSE"
  {}

  /** How the query begins, before the values of the searches. */
  lemma HeadText()
    ensures HEAD == "WITH search_params AS (SELECT * FROM (VALUES "
  {}

  lemma BoundIsSent(text: string, params: seq<Value>, pieces: seq<Piece>)
    requires params != [] && Binds(text, params, pieces)
    ensures Send(text, params) == Bound(pieces, [])
  {
  }

  lemma NoLines(values: seq<SearchRow>)
    ensures Binds(JoinStrings(",", []), [], LinesPieces(values[..0]))
  {
    PlainBinds("");
  }

  lemma RegroupParams(a: seq<Value>, b: seq<Value>, c: seq<Value>, d: seq<Value>)
    ensures ((a + b) + c) + d == a + (b + (c + d))
  {
  }
}

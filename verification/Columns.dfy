/** The column list of a batch query, and the catalog objects that are read back out of its labels. */
module Columns {
  import opened Collections
  import opened Schema
  import opened Filters
  import BatchQuery

  /** A cell of an answer; a column of a layer-2 row is known by the row and its name. */
  datatype Cell = Null | Column(of: Summary, name: string) | Flag(value: bool)

  /** What a SELECT item is: a column under a label, or whether its table has a row. */
  datatype Item =
    | KeyItem(table: Relation, key: string, catalog: string)
    | PresentItem(table: Relation, catalog: string)

  function ItemText(item: Item): string {
    match item
    case KeyItem(table, key, catalog) =>
      table + ("." + (key + (" AS \"" + (catalog + ("|" + (key + "\""))))))
    case PresentItem(table, catalog) =>
      "CASE WHEN " + (table + (BatchQuery.PRESENT + (catalog + "|_present\"")))
  }

  const PRESENT_KEY: string := "_present"

  function LabelOf(item: Item): string {
    match item
    case KeyItem(_, key, catalog) => catalog + "|" + key
    case PresentItem(_, catalog) => catalog + "|" + PRESENT_KEY
  }

  function CellOf(item: Item, row: Joined): Cell {
    match item
    case KeyItem(table, key, _) => if table in row.parts then Column(row.parts[table], key) else Cell.Null
    case PresentItem(table, _) => Flag(table in row.parts)
  }

  // ---- The items of a query ----

  function KeyItems(v: BatchQuery.View, keys: seq<string>): seq<Item> {
    if keys == [] then [] else KeyItems(v, keys[..|keys| - 1]) + [KeyItem(v.table, keys[|keys| - 1], v.catalog)]
  }

  function ViewItems(v: BatchQuery.View): seq<Item> {
    KeyItems(v, v.keys) + [PresentItem(v.table, v.catalog)]
  }

  function ItemsOf(views: seq<BatchQuery.View>): seq<Item> {
    if views == [] then [] else ItemsOf(views[..|views| - 1]) + ViewItems(views[|views| - 1])
  }

  function Texts(items: seq<Item>): seq<string> {
    if items == [] then [] else Texts(items[..|items| - 1]) + [ItemText(items[|items| - 1])]
  }

  lemma {:induction false} TextsAppend(a: seq<Item>, b: seq<Item>)
    ensures Texts(a + b) == Texts(a) + Texts(b)
  {
    if b == [] {
      assert a + b == a;
    } else {
      var front := b[..|b| - 1];
      assert (a + b)[..|a + b| - 1] == a + front;
      TextsAppend(a, front);
    }
  }

  lemma {:induction false} KeyTextsLast(v: BatchQuery.View, keys: seq<string>, key: string)
    ensures BatchQuery.KeyTexts(v, keys + [key]) == BatchQuery.KeyTexts(v, keys) + [BatchQuery.ColumnText(v, key)]
  {
    if keys == [] {
      assert [key][1..] == [];
    } else {
      assert (keys + [key])[1..] == keys[1..] + [key];
      KeyTextsLast(v, keys[1..], key);
    }
  }

  lemma {:induction false} KeyItemsText(v: BatchQuery.View, keys: seq<string>)
    ensures Texts(KeyItems(v, keys)) == BatchQuery.KeyTexts(v, keys)
  {
    if keys != [] {
      var front, last := keys[..|keys| - 1], keys[|keys| - 1];
      KeyItemsText(v, front);
      assert keys == front + [last];
      KeyTextsLast(v, front, last);
      assert KeyItems(v, keys)[..|front|] == KeyItems(v, front) by { KeyItemsSize(v, front); }
      KeyItemsSize(v, front);
    }
  }

  lemma {:induction false} KeyItemsSize(v: BatchQuery.View, keys: seq<string>)
    ensures |KeyItems(v, keys)| == |keys|
  {
    if keys != [] {
      KeyItemsSize(v, keys[..|keys| - 1]);
    }
  }

  /** The items are the columns of the query's text, in its order. */
  lemma {:induction false} ItemsAreColumns(views: seq<BatchQuery.View>)
    ensures Texts(ItemsOf(views)) == BatchQuery.ColumnTexts(views)
  {
    if views != [] {
      var front, last := views[..|views| - 1], views[|views| - 1];
      ItemsAreColumns(front);
      TextsAppend(ItemsOf(front), ViewItems(last));
      TextsAppend(KeyItems(last, last.keys), [PresentItem(last.table, last.catalog)]);
      KeyItemsText(last, last.keys);
      OneText(PresentItem(last.table, last.catalog));
    }
  }

  lemma OneText(item: Item)
    ensures Texts([item]) == [ItemText(item)]
  {
    assert [item][..0] == [];
  }

  // ---- Reading labels ----

  predicate NoBar(s: string) {
    forall i | 0 <= i < |s| :: s[i] != '|'
  }

  /** `key.split("|")` unpacked into two names: anything but one bar is an error. */
  function SplitLabel(name: string): Option<(string, string)> {
    var i := FirstBar(name);
    if i < |name| && NoBar(name[i + 1..]) then Some((name[..i], name[i + 1..])) else None
  }

  function FirstBar(s: string): (i: nat)
    ensures i <= |s| && NoBar(s[..i]) && (i < |s| ==> s[i] == '|')
  {
    if s == "" then 0 else if s[0] == '|' then 0 else
      var i := FirstBar(s[1..]);
      assert forall k | 0 < k < i + 1 :: s[k] == s[1..][k - 1] && s[1..][..i][k - 1] == s[1..][k - 1];
      i + 1
  }

  lemma {:induction false} FirstBarAt(s: string, k: nat)
    requires k < |s| && s[k] == '|' && NoBar(s[..k])
    ensures FirstBar(s) == k
  {
    if k > 0 {
      assert s[..k][0] == s[0];
      assert s[1..][..k - 1] == s[..k][1..];
      FirstBarAt(s[1..], k - 1);
    }
  }

  lemma LabelSplits(catalog: string, column: string)
    requires NoBar(catalog) && NoBar(column)
    ensures SplitLabel(catalog + "|" + column) == Some((catalog, column))
  {
    var name := catalog + "|" + column;
    assert name[..|catalog|] == catalog && name[|catalog| + 1..] == column;
    FirstBarAt(name, |catalog|);
  }

  /** The two dicts of `_group_by_pgc`, with the order of the first one's keys. */
  datatype Dicts = Dicts(order: seq<string>, data: map<string, map<string, Cell>>, present: map<string, bool>, failed: bool)

  function Put(d: Dicts, name: string, cell: Cell): Dicts {
    var split := SplitLabel(name);
    if split.None? then d.(failed := true) else
      var (catalog, column) := split.value;
      if column == PRESENT_KEY then d.(present := d.present[catalog := cell == Flag(true)])
      else if catalog in d.data then d.(data := d.data[catalog := d.data[catalog][column := cell]])
      else d.(order := d.order + [catalog], data := d.data[catalog := map[column := cell]])
  }

  function PutAll(d: Dicts, items: seq<Item>, row: Joined): Dicts {
    if items == [] then d else
      var last := items[|items| - 1];
      Put(PutAll(d, items[..|items| - 1], row), LabelOf(last), CellOf(last, row))
  }

  /** A catalog of an object with its data, as `from_layer2` receives it. */
  datatype CatalogData = CatalogData(catalog: string, data: map<string, Cell>)

  function PresentData(d: Dicts, order: seq<string>): seq<CatalogData> {
    if order == [] then [] else
      var c := order[|order| - 1];
      PresentData(d, order[..|order| - 1]) +
      if c in d.data && c in d.present && d.present[c] then [CatalogData(c, d.data[c])] else []
  }

  /** The second half of `_group_by_pgc`, for the row it keeps of an object; it raises when a label has not one bar. */
  method ReadObject(items: seq<Item>, row: Joined) returns (failed: bool, data: seq<CatalogData>)
    ensures var d := PutAll(Dicts([], map[], map[], false), items, row);
      failed == d.failed && (!failed ==> data == PresentData(d, d.order))
  {
    hide Put, CellOf, LabelOf;
    var d := Dicts([], map[], map[], false);
    for i := 0 to |items|
      invariant d == PutAll(Dicts([], map[], map[], false), items[..i], row)
    {
      assert items[..i + 1][..i] == items[..i];
      d := Put(d, LabelOf(items[i]), CellOf(items[i], row));
    }
    assert items[..|items|] == items;
    failed, data := d.failed, [];
    for i := 0 to |d.order|
      invariant data == PresentData(d, d.order[..i])
    {
      var c := d.order[i];
      assert d.order[..i + 1][..i] == d.order[..i];
      if c in d.data && c in d.present && d.present[c] {
        data := data + [CatalogData(c, d.data[c])];
      }
    }
    assert d.order[..|d.order|] == d.order;
  }

  // ---- What is read is what was selected ----

  /** A view that can be told from the others by its label, and has a column to say so. */
  predicate Readable(v: BatchQuery.View) {
    && NoBar(v.catalog) && v.keys != []
    && forall k | k in v.keys :: NoBar(k) && k != PRESENT_KEY
  }

  /** All the columns of the view, out of the row. */
  function DataOf(v: BatchQuery.View, row: Joined): map<string, Cell> {
    KeysData(v, v.keys, row)
  }

  /** The requested catalogs that the row has a part of, each with all its columns. */
  function Expected(views: seq<BatchQuery.View>, row: Joined): seq<CatalogData> {
    if views == [] then [] else
      var v := views[|views| - 1];
      Expected(views[..|views| - 1], row) + if v.table in row.parts then [CatalogData(v.catalog, DataOf(v, row))] else []
  }

  function CatalogsOf(views: seq<BatchQuery.View>): seq<string> {
    if views == [] then [] else CatalogsOf(views[..|views| - 1]) + [views[|views| - 1].catalog]
  }

  lemma {:induction false} PutAppend(d: Dicts, a: seq<Item>, b: seq<Item>, row: Joined)
    ensures PutAll(d, a + b, row) == PutAll(PutAll(d, a, row), b, row)
  {
    if b == [] {
      assert a + b == a;
    } else {
      var front := b[..|b| - 1];
      assert (a + b)[..|a + b| - 1] == a + front;
      PutAppend(d, a, front, row);
    }
  }

  lemma PutKey(d: Dicts, catalog: string, key: string, cell: Cell)
    requires NoBar(catalog) && NoBar(key) && key != PRESENT_KEY
    ensures Put(d, catalog + "|" + key, cell) ==
      if catalog in d.data then d.(data := d.data[catalog := d.data[catalog][key := cell]])
      else d.(order := d.order + [catalog], data := d.data[catalog := map[key := cell]])
  {
    hide SplitLabel, NoBar;
    LabelSplits(catalog, key);
  }

  lemma PutPresent(d: Dicts, catalog: string, present: bool)
    requires NoBar(catalog)
    ensures Put(d, catalog + "|" + PRESENT_KEY, Flag(present)) == d.(present := d.present[catalog := present])
  {
    hide SplitLabel;
    LabelSplits(catalog, PRESENT_KEY);
  }

  function KeysData(v: BatchQuery.View, keys: seq<string>, row: Joined): map<string, Cell> {
    map k | k in keys :: CellOf(KeyItem(v.table, k, v.catalog), row)
  }

  lemma KeysDataOn(v: BatchQuery.View, front: seq<string>, last: string, row: Joined)
    ensures KeysData(v, front + [last], row) ==
      KeysData(v, front, row)[last := CellOf(KeyItem(v.table, last, v.catalog), row)]
    ensures KeysData(v, [], row) == map[]
  {
    hide CellOf;
  }

  lemma LastKey(d: Dicts, v: BatchQuery.View, front: seq<string>, last: string, row: Joined)
    ensures PutAll(d, KeyItems(v, front + [last]), row) ==
      Put(PutAll(d, KeyItems(v, front), row), v.catalog + "|" + last, CellOf(KeyItem(v.table, last, v.catalog), row))
  {
    hide Put, CellOf;
    var keys := front + [last];
    assert keys[..|keys| - 1] == front;
    var items := KeyItems(v, keys);
    assert items == KeyItems(v, front) + [KeyItem(v.table, last, v.catalog)];
    assert items[..|items| - 1] == KeyItems(v, front);
  }

  /** The dicts after some columns of a view that is new to them. */
  function AfterKeys(d: Dicts, v: BatchQuery.View, keys: seq<string>, row: Joined): Dicts {
    if keys == [] then d
    else d.(order := d.order + [v.catalog], data := d.data[v.catalog := KeysData(v, keys, row)])
  }

  lemma AfterKeysOn(d: Dicts, v: BatchQuery.View, front: seq<string>, last: string, row: Joined)
    requires NoBar(v.catalog) && NoBar(last) && last != PRESENT_KEY && v.catalog !in d.data
    ensures AfterKeys(d, v, front + [last], row) ==
      Put(AfterKeys(d, v, front, row), v.catalog + "|" + last, CellOf(KeyItem(v.table, last, v.catalog), row))
  {
    hide Put, CellOf, NoBar, KeysData;
    KeysDataOn(v, front, last, row);
    PutKey(AfterKeys(d, v, front, row), v.catalog, last, CellOf(KeyItem(v.table, last, v.catalog), row));
    SetTwice(d.data, v.catalog, KeysData(v, front, row), KeysData(v, front + [last], row));
  }

  lemma SetTwice<K, V>(m: map<K, V>, k: K, x: V, y: V)
    ensures m[k := x][k := y] == m[k := y]
  {}

  lemma {:induction false} KeysPut(d: Dicts, v: BatchQuery.View, keys: seq<string>, row: Joined)
    requires NoBar(v.catalog) && v.catalog !in d.data && forall k | k in keys :: NoBar(k) && k != PRESENT_KEY
    ensures PutAll(d, KeyItems(v, keys), row) == AfterKeys(d, v, keys, row)
  {
    if keys != [] {
      hide Put, CellOf, NoBar, PutAll, KeyItems, AfterKeys;
      var front, last := keys[..|keys| - 1], keys[|keys| - 1];
      assert keys == front + [last];
      KeysPut(d, v, front, row);
      LastKey(d, v, front, last, row);
      AfterKeysOn(d, v, front, last, row);
    }
  }

  lemma ViewPut(d: Dicts, v: BatchQuery.View, row: Joined)
    requires Readable(v) && v.catalog !in d.data
    ensures PutAll(d, ViewItems(v), row) ==
      d.(order := d.order + [v.catalog], data := d.data[v.catalog := KeysData(v, v.keys, row)],
         present := d.present[v.catalog := v.table in row.parts])
  {
    hide KeyItems, Put, NoBar, KeysData;
    var keys, flag := KeyItems(v, v.keys), PresentItem(v.table, v.catalog);
    PutAppend(d, keys, [flag], row);
    KeysPut(d, v, v.keys, row);
    OneItem(PutAll(d, keys, row), flag, row);
    PutPresent(PutAll(d, keys, row), v.catalog, v.table in row.parts);
  }

  lemma OneItem(d: Dicts, item: Item, row: Joined)
    ensures PutAll(d, [item], row) == Put(d, LabelOf(item), CellOf(item, row))
  {
    assert [item][..0] == [];
  }

  /** The dicts after some of the views. */
  ghost predicate Filled(d: Dicts, views: seq<BatchQuery.View>, row: Joined) {
    && !d.failed && d.order == CatalogsOf(views) && d.data.Keys == Elements(CatalogsOf(views))
    && forall v | v in views ::
         v.catalog in d.data && d.data[v.catalog] == DataOf(v, row)
         && v.catalog in d.present && d.present[v.catalog] == (v.table in row.parts)
  }

  lemma {:induction false} CatalogsMember(views: seq<BatchQuery.View>, v: BatchQuery.View)
    requires v in views
    ensures v.catalog in CatalogsOf(views)
  {
    var front, last := views[..|views| - 1], views[|views| - 1];
    assert views == front + [last];
    if v != last {
      CatalogsMember(front, v);
    }
  }

  lemma {:induction false} CatalogsSize(views: seq<BatchQuery.View>)
    ensures |CatalogsOf(views)| == |views|
  {
    if views != [] {
      CatalogsSize(views[..|views| - 1]);
    }
  }

  lemma FilledOn(d: Dicts, front: seq<BatchQuery.View>, v: BatchQuery.View, row: Joined)
    requires Filled(d, front, row) && Readable(v) && v.catalog !in CatalogsOf(front)
    ensures Filled(PutAll(d, ViewItems(v), row), front + [v], row)
  {
    hide KeysData, Readable, PutAll, ViewItems, CatalogsOf;
    assert v.catalog !in Elements(CatalogsOf(front));
    ViewPut(d, v, row);
    OneCatalogMore(front, v);
    forall w | w in front ensures w.catalog != v.catalog {
      CatalogsMember(front, w);
    }
  }

  lemma OneCatalogMore(front: seq<BatchQuery.View>, v: BatchQuery.View)
    ensures CatalogsOf(front + [v]) == CatalogsOf(front) + [v.catalog]
    ensures Elements(CatalogsOf(front) + [v.catalog]) == Elements(CatalogsOf(front)) + {v.catalog}
  {
    assert (front + [v])[..|front + [v]| - 1] == front;
  }

  lemma LastIsNew<T>(s: seq<T>, x: T)
    requires NoDuplicates(s + [x])
    ensures NoDuplicates(s) && x !in s
  {
    assert forall i | 0 <= i < |s| :: (s + [x])[i] == s[i];
    assert (s + [x])[|s|] == x;
  }

  lemma {:induction false} AllFilled(views: seq<BatchQuery.View>, row: Joined)
    requires (forall v | v in views :: Readable(v)) && NoDuplicates(CatalogsOf(views))
    ensures Filled(PutAll(Dicts([], map[], map[], false), ItemsOf(views), row), views, row)
  {
    hide Readable, DataOf, ViewItems, NoDuplicates, Put;
    if views != [] {
      var front, last := views[..|views| - 1], views[|views| - 1];
      assert views == front + [last];
      OneCatalogMore(front, last);
      LastIsNew(CatalogsOf(front), last.catalog);
      AllFilled(front, row);
      PutAppend(Dicts([], map[], map[], false), ItemsOf(front), ViewItems(last), row);
      FilledOn(PutAll(Dicts([], map[], map[], false), ItemsOf(front), row), front, last, row);
    }
  }

  lemma {:induction false} PresentIsExpected(d: Dicts, all: seq<BatchQuery.View>, views: seq<BatchQuery.View>, row: Joined)
    requires Filled(d, all, row) && forall v | v in views :: v in all
    ensures PresentData(d, CatalogsOf(views)) == Expected(views, row)
  {
    hide DataOf;
    if views != [] {
      var front, last := views[..|views| - 1], views[|views| - 1];
      assert views == front + [last];
      CatalogsSize(front);
      assert CatalogsOf(views)[..|front|] == CatalogsOf(front);
      PresentIsExpected(d, all, front, row);
      assert last in all;
    }
  }

  /** Out of the labels of the columns comes each requested catalog that the row has a part of, whole, and no other. */
  lemma ColumnsReadBack(views: seq<BatchQuery.View>, row: Joined)
    requires (forall v | v in views :: Readable(v)) && NoDuplicates(CatalogsOf(views))
    ensures var d := PutAll(Dicts([], map[], map[], false), ItemsOf(views), row);
      !d.failed && PresentData(d, d.order) == Expected(views, row)
  {
    hide Readable, Put, DataOf;
    AllFilled(views, row);
    PresentIsExpected(PutAll(Dicts([], map[], map[], false), ItemsOf(views), row), views, views, row);
  }
}

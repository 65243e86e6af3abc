/** Query text with placeholders, and which value each placeholder receives. */
module Binding {
  import opened Collections
  import opened Filters

  datatype Value =
    | OfText(text: string)
    | OfInt(number: int)
    | OfReal(measure: real)
    | OfPgc(pgc: Pgc)
    | OfJson(params: Params)

  /** What the database is sent: characters, and values in place of placeholders. */
  datatype Piece = Letter(letter: char) | Hole(value: Value)

  datatype Bound = Malformed | Bound(pieces: seq<Piece>, unused: seq<Value>)

  // ---- The client's treatment of a text ----

  /** The `format` style of PEP 249: `%s` takes the next value, `%%` is a per cent sign, a lone `%` is an error. */
  function Bind(text: string, values: seq<Value>): Bound {
    if text == "" then Bound([], values)
    else if text[0] != '%' then Prepend([Letter(text[0])], Bind(text[1..], values))
    else if |text| >= 2 && text[1] == '%' then Prepend([Letter('%')], Bind(text[2..], values))
    else if |text| >= 2 && text[1] == 's' && values != [] then Prepend([Hole(values[0])], Bind(text[2..], values[1..]))
    else Malformed
  }

  function Prepend(pieces: seq<Piece>, b: Bound): Bound {
    if b.Malformed? then Malformed else Bound(pieces + b.pieces, b.unused)
  }

  /** The values are used up, and the placeholders stand where `pieces` has holes. */
  predicate Binds(text: string, values: seq<Value>, pieces: seq<Piece>) {
    Bind(text, values) == Bound(pieces, [])
  }

  predicate Plain(text: string) {
    forall i | 0 <= i < |text| :: text[i] != '%'
  }

  function Letters(text: string): seq<Piece> {
    if text == "" then [] else [Letter(text[0])] + Letters(text[1..])
  }

  lemma {:induction false} PlainBinds(text: string)
    requires Plain(text)
    ensures Binds(text, [], Letters(text))
  {
    if text != "" {
      assert Plain(text[1..]);
      PlainBinds(text[1..]);
    }
  }

  lemma PlaceholderBinds(v: Value)
    ensures Binds("%s", [v], [Hole(v)])
  {
    assert "%s"[2..] == "" && [v][1..] == [];
    assert Bind("", []) == Bound([], []);
  }

  lemma EscapeBinds()
    ensures Binds("%%", [], [Letter('%')])
  {
    assert "%%"[2..] == "";
    assert Bind("", []) == Bound([], []);
  }

  lemma PrependTwice(x: seq<Piece>, y: seq<Piece>, b: Bound)
    ensures Prepend(x, Prepend(y, b)) == Prepend(x + y, b)
  {
    assert b.Bound? ==> x + (y + b.pieces) == (x + y) + b.pieces;
  }

  /** Texts that use up their own values keep them side by side. */
  lemma {:induction false} BindAppend(a: string, b: string, own: seq<Value>, others: seq<Value>)
    requires Bind(a, own).Bound? && Bind(a, own).unused == []
    ensures Bind(a + b, own + others) == Prepend(Bind(a, own).pieces, Bind(b, others))
    decreases |a|
  {
    if a == "" {
      assert a + b == b && own + others == others;
    } else if a[0] != '%' {
      assert (a + b)[1..] == a[1..] + b;
      BindAppend(a[1..], b, own, others);
      PrependTwice([Letter(a[0])], Bind(a[1..], own).pieces, Bind(b, others));
    } else if a[1] == '%' {
      assert (a + b)[2..] == a[2..] + b;
      BindAppend(a[2..], b, own, others);
      PrependTwice([Letter('%')], Bind(a[2..], own).pieces, Bind(b, others));
    } else {
      assert (a + b)[2..] == a[2..] + b;
      assert (own + others)[1..] == own[1..] + others;
      BindAppend(a[2..], b, own[1..], others);
      PrependTwice([Hole(own[0])], Bind(a[2..], own[1..]).pieces, Bind(b, others));
    }
  }

  lemma BindsJoin(a: string, b: string, own: seq<Value>, others: seq<Value>, x: seq<Piece>, y: seq<Piece>)
    requires Binds(a, own, x) && Binds(b, others, y)
    ensures Binds(a + b, own + others, x + y)
  {
    BindAppend(a, b, own, others);
  }

  function Holes(pieces: seq<Piece>): seq<Value> {
    if pieces == [] then []
    else (if pieces[0].Hole? then [pieces[0].value] else []) + Holes(pieces[1..])
  }

  /** There are as many placeholders as values, and the k-th placeholder receives the k-th value. */
  lemma {:induction false} HolesAreValues(text: string, values: seq<Value>)
    requires Bind(text, values).Bound?
    ensures Holes(Bind(text, values).pieces) + Bind(text, values).unused == values
    decreases |text|
  {
    if text == "" {
    } else if text[0] != '%' {
      HolesAreValues(text[1..], values);
      assert Bind(text, values).pieces[1..] == Bind(text[1..], values).pieces;
    } else if text[1] == '%' {
      HolesAreValues(text[2..], values);
      assert Bind(text, values).pieces[1..] == Bind(text[2..], values).pieces;
    } else {
      HolesAreValues(text[2..], values[1..]);
      assert Bind(text, values).pieces[1..] == Bind(text[2..], values[1..]).pieces;
    }
  }

  /** `PgStorage.query` sends a text without parameters as it stands, escapes included. */
  function Send(text: string, values: seq<Value>): Bound {
    if values == [] then Bound(Letters(text), []) else Bind(text, values)
  }

  // ---- The words of the WHERE clause ----

  /** The text of `n` placeholders in a list. */
  function Placeholders(n: nat): string {
    if n == 0 then "" else if n == 1 then "%s" else "%s" + (", " + Placeholders(n - 1))
  }

  function PgcValues(pgcs: seq<Pgc>): seq<Value> {
    if pgcs == [] then [] else [OfPgc(pgcs[0])] + PgcValues(pgcs[1..])
  }

  function PgcHoles(pgcs: seq<Pgc>): seq<Piece> {
    if pgcs == [] then []
    else if |pgcs| == 1 then [Hole(OfPgc(pgcs[0]))]
    else [Hole(OfPgc(pgcs[0]))] + (Letters(", ") + PgcHoles(pgcs[1..]))
  }

  const PGC_HEAD: string := "pgc IN ("
  const EQUALS_HEAD: string := "designation.design = "
  const CLOSE_HEAD: string := "levenshtein_less_equal(layer2." + ("designation.design, " + "sp.params->>'design', ")
  const LIKE_HEAD: string := "layer2.designations.design ILIKE CONCAT('"
  const LIKE_MIDDLE: string := "', sp.params->>'design', '"
  const RADIUS_HEAD: string :=
    "ST_DWithin(ST_MakePoint(" + ("(sp.params->>'ra')::float, " + "(sp.params->>'dec')::float)::geography, ")
  const RADIUS_MIDDLE: string := "ST_MakePoint(layer2.icrs.ra, " + "layer2.icrs.dec)::geography, "

  function LeafText(f: Filter): string {
    match f
    case PgcOneOf(pgcs) => PGC_HEAD + (Placeholders(|pgcs|) + ")")
    case DesignationEquals(_) => EQUALS_HEAD + "%s"
    case DesignationClose(_) => CLOSE_HEAD + ("%s" + (") < " + "%s"))
    case DesignationLike => LIKE_HEAD + ("%%" + (LIKE_MIDDLE + ("%%" + "')")))
    case InRadius(_) => RADIUS_HEAD + (RADIUS_MIDDLE + ("%s" + ", false)"))
    case _ => ""
  }

  function LeafValues(f: Filter): seq<Value> {
    match f
    case PgcOneOf(pgcs) => PgcValues(pgcs)
    case DesignationEquals(designation) => [OfText(designation)]
    case DesignationClose(distance) => [OfInt(distance), OfInt(distance)]
    case InRadius(radius) => [OfReal(radius)]
    case _ => []
  }

  /** A leaf with its own values in place. */
  function LeafPieces(f: Filter): seq<Piece> {
    match f
    case PgcOneOf(pgcs) => Letters(PGC_HEAD) + (PgcHoles(pgcs) + Letters(")"))
    case DesignationEquals(designation) => Letters(EQUALS_HEAD) + [Hole(OfText(designation))]
    case DesignationClose(distance) =>
      Letters(CLOSE_HEAD) + ([Hole(OfInt(distance))] + (Letters(") < ") + [Hole(OfInt(distance))]))
    case DesignationLike =>
      Letters(LIKE_HEAD) + ([Letter('%')] + (Letters(LIKE_MIDDLE) + ([Letter('%')] + Letters("')"))))
    case InRadius(radius) =>
      Letters(RADIUS_HEAD) + (Letters(RADIUS_MIDDLE) + ([Hole(OfReal(radius))] + Letters(", false)")))
    case _ => []
  }

  lemma {:induction false} PgcListBinds(pgcs: seq<Pgc>)
    ensures Binds(Placeholders(|pgcs|), PgcValues(pgcs), PgcHoles(pgcs))
  {
    if |pgcs| == 1 {
      PlaceholderBinds(OfPgc(pgcs[0]));
      assert PgcValues(pgcs[1..]) == [];
    } else if |pgcs| > 1 {
      var rest := pgcs[1..];
      PgcListBinds(rest);
      PlainBinds(", ");
      PlaceholderBinds(OfPgc(pgcs[0]));
      BindsJoin(", ", Placeholders(|rest|), [], PgcValues(rest), Letters(", "), PgcHoles(rest));
      assert [] + PgcValues(rest) == PgcValues(rest);
      BindsJoin("%s", ", " + Placeholders(|rest|), [OfPgc(pgcs[0])], PgcValues(rest),
        [Hole(OfPgc(pgcs[0]))], Letters(", ") + PgcHoles(rest));
    }
  }

  lemma PlainThen(text: string, b: string, values: seq<Value>, pieces: seq<Piece>)
    requires Plain(text) && Binds(b, values, pieces)
    ensures Binds(text + b, values, Letters(text) + pieces)
  {
    PlainBinds(text);
    BindsJoin(text, b, [], values, Letters(text), pieces);
    assert [] + values == values;
  }

  lemma PlaceholderThen(v: Value, b: string, values: seq<Value>, pieces: seq<Piece>)
    requires Binds(b, values, pieces)
    ensures Binds("%s" + b, [v] + values, [Hole(v)] + pieces)
  {
    PlaceholderBinds(v);
    BindsJoin("%s", b, [v], values, [Hole(v)], pieces);
  }

  lemma EscapeThen(b: string, values: seq<Value>, pieces: seq<Piece>)
    requires Binds(b, values, pieces)
    ensures Binds("%%" + b, values, [Letter('%')] + pieces)
  {
    EscapeBinds();
    BindsJoin("%%", b, [], values, [Letter('%')], pieces);
    assert [] + values == values;
  }

  lemma ShortTextsPlain()
    ensures Plain(PGC_HEAD) && Plain(")") && Plain(EQUALS_HEAD) && Plain(") < ") && Plain("')") && Plain(", false)")
  {
  }

  lemma PlainAppend(a: string, b: string)
    requires Plain(a) && Plain(b)
    ensures Plain(a + b)
  {
  }

  lemma LongTextsPlain()
    ensures Plain(CLOSE_HEAD) && Plain(LIKE_HEAD) && Plain(LIKE_MIDDLE)
  {
    PlainAppend("designation.design, ", "sp.params->>'design', ");
    PlainAppend("levenshtein_less_equal(layer2.", "designation.design, " + "sp.params->>'design', ");
  }

  lemma RadiusTextsPlain()
    ensures Plain(RADIUS_HEAD) && Plain(RADIUS_MIDDLE)
  {
    PlainAppend("(sp.params->>'ra')::float, ", "(sp.params->>'dec')::float)::geography, ");
    PlainAppend("ST_DWithin(ST_MakePoint(", "(sp.params->>'ra')::float, " + "(sp.params->>'dec')::float)::geography, ");
    PlainAppend("ST_MakePoint(layer2.icrs.ra, ", "layer2.icrs.dec)::geography, ");
  }

  lemma PgcBinds(head: string, pgcs: seq<Pgc>, tail: string)
    requires Plain(head) && Plain(tail)
    ensures Binds(head + (Placeholders(|pgcs|) + tail), PgcValues(pgcs), Letters(head) + (PgcHoles(pgcs) + Letters(tail)))
  {
    PgcListBinds(pgcs);
    PlainBinds(tail);
    BindsJoin(Placeholders(|pgcs|), tail, PgcValues(pgcs), [], PgcHoles(pgcs), Letters(tail));
    assert PgcValues(pgcs) + [] == PgcValues(pgcs);
    PlainThen(head, Placeholders(|pgcs|) + tail, PgcValues(pgcs), PgcHoles(pgcs) + Letters(tail));
  }

  lemma TwoPlaceholders(head: string, v: Value, middle: string, w: Value)
    requires Plain(head) && Plain(middle)
    ensures Binds(head + ("%s" + (middle + "%s")), [v, w], Letters(head) + ([Hole(v)] + (Letters(middle) + [Hole(w)])))
  {
    PlaceholderBinds(w);
    PlainThen(middle, "%s", [w], [Hole(w)]);
    PlaceholderThen(v, middle + "%s", [w], Letters(middle) + [Hole(w)]);
    assert [v] + [w] == [v, w];
    PlainThen(head, "%s" + (middle + "%s"), [v, w], [Hole(v)] + (Letters(middle) + [Hole(w)]));
  }

  lemma TwoEscapes(head: string, middle: string, tail: string)
    requires Plain(head) && Plain(middle) && Plain(tail)
    ensures Binds(head + ("%%" + (middle + ("%%" + tail))), [],
      Letters(head) + ([Letter('%')] + (Letters(middle) + ([Letter('%')] + Letters(tail)))))
  {
    PlainBinds(tail);
    EscapeThen(tail, [], Letters(tail));
    PlainThen(middle, "%%" + tail, [], [Letter('%')] + Letters(tail));
    EscapeThen(middle + ("%%" + tail), [], Letters(middle) + ([Letter('%')] + Letters(tail)));
    PlainThen(head, "%%" + (middle + ("%%" + tail)), [],
      [Letter('%')] + (Letters(middle) + ([Letter('%')] + Letters(tail))));
  }

  lemma OnePlaceholder(head: string, middle: string, v: Value, tail: string)
    requires Plain(head) && Plain(middle) && Plain(tail)
    ensures Binds(head + (middle + ("%s" + tail)), [v], Letters(head) + (Letters(middle) + ([Hole(v)] + Letters(tail))))
  {
    PlainBinds(tail);
    PlaceholderThen(v, tail, [], Letters(tail));
    assert [v] + [] == [v];
    PlainThen(middle, "%s" + tail, [v], [Hole(v)] + Letters(tail));
    PlainThen(head, middle + ("%s" + tail), [v], Letters(middle) + ([Hole(v)] + Letters(tail)));
  }

  lemma LeafBinds(f: Filter)
    requires IsLeaf(f)
    ensures Binds(LeafText(f), LeafValues(f), LeafPieces(f))
  {
    hide Binds, Letters, Plain;
    ShortTextsPlain();
    LongTextsPlain();
    RadiusTextsPlain();
    match f
    case PgcOneOf(pgcs) => PgcBinds(PGC_HEAD, pgcs, ")");
    case DesignationEquals(designation) =>
      PlaceholderBinds(OfText(designation));
      PlainThen(EQUALS_HEAD, "%s", [OfText(designation)], [Hole(OfText(designation))]);
    case DesignationClose(distance) => TwoPlaceholders(CLOSE_HEAD, OfInt(distance), ") < ", OfInt(distance));
    case DesignationLike => TwoEscapes(LIKE_HEAD, LIKE_MIDDLE, "')");
    case InRadius(radius) => OnePlaceholder(RADIUS_HEAD, RADIUS_MIDDLE, OfReal(radius), ", false)");
  }
}

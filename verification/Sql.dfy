/** Bound text read as the database reads it: tokens, and the expressions they parse to. */
module Sql {
  import opened Collections
  import opened Binding

  // ---- Tokens ----

  datatype Token =
    | Word(name: string)
    | Quoted(text: string)
    | Label(text: string)
    | Given(value: Value)
    | Open
    | Close
    | Comma
    | Dot
    | Equals
    | LessThan
    | Arrow
    | CastSign

  predicate IsWordChar(c: char) {
    'a' <= c <= 'z' || 'A' <= c <= 'Z' || '0' <= c <= '9' || c == '_'
  }

  predicate IsWordPiece(p: Piece) {
    p.Letter? && IsWordChar(p.letter)
  }

  /** How many pieces from the first on belong to a word. */
  function WordLength(ps: seq<Piece>): (n: nat)
    ensures n <= |ps| && forall i | 0 <= i < n :: IsWordPiece(ps[i])
  {
    if ps == [] || !IsWordPiece(ps[0]) then 0 else 1 + WordLength(ps[1..])
  }

  /** How many pieces stand before the next `quote`; all of them if there is none or a value comes first. */
  function QuotedLength(ps: seq<Piece>, quote: char): (n: nat)
    ensures n <= |ps| && forall i | 0 <= i < n :: ps[i].Letter? || n == |ps|
  {
    if ps == [] then 0
    else if ps[0].Hole? then |ps|
    else if ps[0].letter == quote then 0
    else 1 + QuotedLength(ps[1..], quote)
  }

  function CharsOf(ps: seq<Piece>): string {
    if ps == [] then "" else [if ps[0].Letter? then ps[0].letter else ' '] + CharsOf(ps[1..])
  }

  function Prefix(t: Token, rest: Option<seq<Token>>): Option<seq<Token>> {
    if rest.None? then None else Some([t] + rest.value)
  }

  function SignOf(c: char): Option<Token> {
    match c
    case '(' => Some(Open)
    case ')' => Some(Close)
    case ',' => Some(Comma)
    case '.' => Some(Dot)
    case '=' => Some(Equals)
    case '<' => Some(LessThan)
    case _ => None
  }

  predicate StartsWith(ps: seq<Piece>, text: string) {
    |text| <= |ps| && forall i | 0 <= i < |text| :: ps[i] == Letter(text[i])
  }

  function Lex(ps: seq<Piece>): Option<seq<Token>>
    decreases |ps|
  {
    if ps == [] then Some([])
    else if ps[0].Hole? then Prefix(Given(ps[0].value), Lex(ps[1..]))
    else LexLetter(ps[0].letter, ps)
  }

  function LexLetter(c: char, ps: seq<Piece>): Option<seq<Token>>
    requires ps != [] && ps[0] == Letter(c)
    decreases |ps|, 0
  {
    if c == ' ' then Lex(ps[1..])
    else if SignOf(c).Some? then Prefix(SignOf(c).value, Lex(ps[1..]))
    else if StartsWith(ps, "::") then Prefix(CastSign, Lex(ps[2..]))
    else if StartsWith(ps, "->>") then Prefix(Arrow, Lex(ps[3..]))
    else if c == '\'' || c == '"' then LexQuoted(c, ps[1..])
    else if IsWordChar(c) then
      var n := WordLength(ps);
      if n == 0 then None else Prefix(Word(CharsOf(ps[..n])), Lex(ps[n..]))
    else None
  }

  function LexQuoted(quote: char, ps: seq<Piece>): Option<seq<Token>>
    decreases |ps|, 1
  {
    var n := QuotedLength(ps, quote);
    if n == |ps| then None
    else
      var text := CharsOf(ps[..n]);
      Prefix(if quote == '\'' then Quoted(text) else Label(text), Lex(ps[n + 1..]))
  }

  // ---- Spelling ----

  /** Tokens with the blanks between them. */
  datatype Item = Tok(token: Token) | Gap

  function Spelled(t: Token): seq<Piece> {
    match t
    case Word(name) => Letters(name)
    case Quoted(text) => [Letter('\'')] + (Letters(text) + [Letter('\'')])
    case Label(text) => [Letter('"')] + (Letters(text) + [Letter('"')])
    case Given(v) => [Hole(v)]
    case Open => [Letter('(')]
    case Close => [Letter(')')]
    case Comma => [Letter(',')]
    case Dot => [Letter('.')]
    case Equals => [Letter('=')]
    case LessThan => [Letter('<')]
    case Arrow => [Letter('-'), Letter('>'), Letter('>')]
    case CastSign => [Letter(':'), Letter(':')]
  }

  function SpelledItem(i: Item): seq<Piece> {
    if i.Gap? then [Letter(' ')] else Spelled(i.token)
  }

  function Spell(items: seq<Item>): seq<Piece> {
    if items == [] then [] else SpelledItem(items[0]) + Spell(items[1..])
  }

  function TokenOf(i: Item): seq<Token> {
    if i.Gap? then [] else [i.token]
  }

  function TokensOf(items: seq<Item>): seq<Token> {
    if items == [] then [] else TokenOf(items[0]) + TokensOf(items[1..])
  }

  predicate IsWord(name: string) {
    name != "" && forall i | 0 <= i < |name| :: IsWordChar(name[i])
  }

  predicate Lacks(text: string, c: char) {
    forall i | 0 <= i < |text| :: text[i] != c
  }

  predicate Spellable(t: Token) {
    && (t.Word? ==> IsWord(t.name))
    && (t.Quoted? ==> Lacks(t.text, '\''))
    && (t.Label? ==> Lacks(t.text, '"'))
  }

  /** Two words are kept apart. */
  predicate Readable(items: seq<Item>) {
    items == [] ||
    ( && (items[0].Tok? ==> Spellable(items[0].token))
      && (|items| >= 2 && items[0].Tok? && items[0].token.Word? ==> items[1].Gap? || !items[1].token.Word?)
      && Readable(items[1..]))
  }

  lemma {:induction false} LettersAre(text: string)
    ensures |Letters(text)| == |text|
    ensures forall i | 0 <= i < |text| :: Letters(text)[i] == Letter(text[i])
    ensures CharsOf(Letters(text)) == text
  {
    if text != "" {
      LettersAre(text[1..]);
      assert Letters(text)[1..] == Letters(text[1..]);
    }
  }

  lemma {:induction false} WordLengthIs(ps: seq<Piece>, n: nat)
    requires n <= |ps| && (forall i | 0 <= i < n :: IsWordPiece(ps[i])) && (n < |ps| ==> !IsWordPiece(ps[n]))
    ensures WordLength(ps) == n
  {
    if n > 0 {
      WordLengthIs(ps[1..], n - 1);
    }
  }

  lemma {:induction false} QuotedLengthIs(ps: seq<Piece>, quote: char, n: nat)
    requires n < |ps| && ps[n] == Letter(quote)
    requires forall i | 0 <= i < n :: ps[i].Letter? && ps[i].letter != quote
    ensures QuotedLength(ps, quote) == n
  {
    if n > 0 {
      QuotedLengthIs(ps[1..], quote, n - 1);
    }
  }

  lemma LexWord(name: string, rest: seq<Piece>)
    requires IsWord(name) && (rest != [] ==> !IsWordPiece(rest[0]))
    ensures Lex(Letters(name) + rest) == Prefix(Word(name), Lex(rest))
  {
    var ps := Letters(name) + rest;
    LettersAre(name);
    assert ps[0] == Letter(name[0]) && IsWordChar(name[0]);
    forall i | 0 <= i < |name| ensures IsWordPiece(ps[i]) {
      assert ps[i] == Letter(name[i]);
    }
    WordLengthIs(ps, |name|);
    assert ps[..|name|] == Letters(name) && ps[|name|..] == rest;
    assert !StartsWith(ps, "::") && !StartsWith(ps, "->>") by {
      assert "::"[0] == ':' && "->>"[0] == '-';
    }
  }

  lemma LexQuote(quote: char, text: string, rest: seq<Piece>)
    requires quote == '\'' || quote == '"'
    requires Lacks(text, quote)
    ensures Lex([Letter(quote)] + (Letters(text) + [Letter(quote)]) + rest) ==
      Prefix(if quote == '\'' then Quoted(text) else Label(text), Lex(rest))
  {
    var inner := Letters(text) + [Letter(quote)] + rest;
    var ps := [Letter(quote)] + (Letters(text) + [Letter(quote)]) + rest;
    assert ps[1..] == inner;
    LettersAre(text);
    forall i | 0 <= i < |text| ensures inner[i] == Letter(text[i]) {}
    QuotedLengthIs(inner, quote, |text|);
    assert inner[..|text|] == Letters(text) && inner[|text| + 1..] == rest;
    assert !StartsWith(ps, "::") && !StartsWith(ps, "->>") by {
      assert ps[0] == Letter(quote) && "::"[0] == ':' && "->>"[0] == '-';
    }
    assert Lex(ps) == LexLetter(quote, ps);
    assert LexLetter(quote, ps) == LexQuoted(quote, inner);
  }

  lemma LexOther(t: Token, rest: seq<Piece>)
    requires !t.Word? && !t.Quoted? && !t.Label?
    ensures Lex(Spelled(t) + rest) == Prefix(t, Lex(rest))
  {
    var ps := Spelled(t) + rest;
    if t.Arrow? {
      assert ps[3..] == rest && StartsWith(ps, "->>");
      assert !StartsWith(ps, "::") by { assert "::"[0] == ':'; }
    } else if t.CastSign? {
      assert ps[2..] == rest && StartsWith(ps, "::");
    } else {
      assert ps[1..] == rest;
    }
  }

  lemma LexGap(rest: seq<Piece>)
    ensures Lex([Letter(' ')] + rest) == Lex(rest)
  {
    assert ([Letter(' ')] + rest)[1..] == rest;
  }

  lemma NotAWordNext(items: seq<Item>)
    requires Readable(items) && (items != [] ==> items[0].Gap? || !items[0].token.Word?)
    ensures Spell(items) != [] ==> !IsWordPiece(Spell(items)[0])
  {
    if items != [] && items[0].Tok? {
      assert Spelled(items[0].token) != [] && Spell(items)[0] == Spelled(items[0].token)[0];
    }
  }

  /** Tokens that are spelled out are read again. */
  lemma {:induction false} LexSpelled(items: seq<Item>)
    requires Readable(items)
    ensures Lex(Spell(items)) == Some(TokensOf(items))
  {
    hide Lex, Spelled, Spellable;
    if items == [] {
      LexNothing();
    } else {
      LexSpelled(items[1..]);
      var rest := Spell(items[1..]);
      if items[0].Gap? {
        assert Spell(items) == [Letter(' ')] + rest && TokensOf(items) == [] + TokensOf(items[1..]);
        assert [] + TokensOf(items[1..]) == TokensOf(items[1..]);
        LexGap(rest);
      } else {
        assert Spell(items) == Spelled(items[0].token) + rest;
        LexToken(items);
        assert TokensOf(items) == [items[0].token] + TokensOf(items[1..]);
      }
    }
  }

  lemma LexNothing()
    ensures Lex([]) == Some([])
  {}

  lemma LexToken(items: seq<Item>)
    requires Readable(items) && items != [] && items[0].Tok?
    ensures Lex(Spelled(items[0].token) + Spell(items[1..])) == Prefix(items[0].token, Lex(Spell(items[1..])))
  {
    hide Lex, Spell, Lacks, IsWord;
    var t, rest := items[0].token, Spell(items[1..]);
    match t
    case Word(name) =>
      if |items| >= 2 {
        assert items[1..][0] == items[1];
      }
      NotAWordNext(items[1..]);
      LexWord(name, rest);
    case Quoted(text) => LexQuote('\'', text, rest);
    case Label(text) => LexQuote('"', text, rest);
    case _ => LexOther(t, rest);
  }

  // ---- Blanks ----

  const BEFORE: set<string> := {"ILIKE", "IN", "IS", "NOT", "NULL", "THEN", "ELSE", "END", "AS", "LIMIT", "OFFSET",
    "AND", "OR", "CROSS", "LEFT", "FULL", "JOIN", "USING"}
  const AFTER: set<string> := {"ILIKE", "IN", "CASE", "WHEN", "THEN", "ELSE", "AS", "ORDER", "BY", "LIMIT", "OFFSET",
    "AND", "OR", "JOIN", "USING"}

  predicate GapBefore(t: Token) {
    t.Equals? || t.LessThan? || (t.Word? && t.name in BEFORE)
  }

  predicate GapAfter(t: Token) {
    t.Comma? || t.Equals? || t.LessThan? || (t.Word? && t.name in AFTER)
  }

  /** A token with the blanks it is written with. */
  function Spaced(t: Token): seq<Item> {
    (if GapBefore(t) then [Gap] else []) + ([Tok(t)] + if GapAfter(t) then [Gap] else [])
  }

  function Layout(ts: seq<Token>): seq<Item> {
    if ts == [] then [] else Spaced(ts[0]) + Layout(ts[1..])
  }

  function Written(ts: seq<Token>): seq<Piece> {
    Spell(Layout(ts))
  }

  /** The words that follow one another have a blank between them. */
  predicate Apart(a: Token, b: Token) {
    a.Word? && b.Word? ==> GapAfter(a) || GapBefore(b)
  }

  predicate Legible(ts: seq<Token>) {
    && (forall t | t in ts :: Spellable(t))
    && forall i | 0 <= i < |ts| - 1 :: Apart(ts[i], ts[i + 1])
  }

  lemma {:induction false} TokensAppend(a: seq<Item>, b: seq<Item>)
    ensures TokensOf(a + b) == TokensOf(a) + TokensOf(b)
    ensures Spell(a + b) == Spell(a) + Spell(b)
  {
    hide SpelledItem, TokenOf;
    if a == [] {
      assert a + b == b;
    } else {
      assert (a + b)[1..] == a[1..] + b && (a + b)[0] == a[0];
      TokensAppend(a[1..], b);
      LeftGroup(TokenOf(a[0]), TokensOf(a[1..]), TokensOf(b));
      LeftGroup(SpelledItem(a[0]), Spell(a[1..]), Spell(b));
    }
  }

  lemma LeftGroup<T>(a: seq<T>, b: seq<T>, c: seq<T>)
    ensures a + (b + c) == (a + b) + c
  {}

  lemma SpacedToken(t: Token)
    ensures TokensOf(Spaced(t)) == [t]
    ensures Spell(Spaced(t)) ==
      (if GapBefore(t) then [Letter(' ')] else []) + (Spelled(t) + if GapAfter(t) then [Letter(' ')] else [])
  {
    hide GapBefore, GapAfter, Spelled;
    var after := if GapAfter(t) then [Gap] else [];
    assert [Gap][1..] == [] && [Tok(t)][1..] == [];
    assert Spell([Gap]) == [Letter(' ')] && Spell([Tok(t)]) == Spelled(t) && Spell([]) == [];
    assert TokensOf([Gap]) == [] && TokensOf([Tok(t)]) == [t];
    TokensAppend([Tok(t)], after);
    TokensAppend(if GapBefore(t) then [Gap] else [], [Tok(t)] + after);
  }

  lemma {:induction false} LayoutTokens(ts: seq<Token>)
    ensures TokensOf(Layout(ts)) == ts
  {
    if ts != [] {
      LayoutTokens(ts[1..]);
      SpacedToken(ts[0]);
      TokensAppend(Spaced(ts[0]), Layout(ts[1..]));
    }
  }

  lemma SpacedReadable(t: Token, next: seq<Item>)
    requires Spellable(t) && Readable(next)
    requires t.Word? && !GapAfter(t) && next != [] ==> next[0].Gap? || !next[0].token.Word?
    ensures Readable(Spaced(t) + next)
  {
    hide GapBefore, GapAfter, Spellable;
    var tail := if GapAfter(t) then [Gap] + next else next;
    if GapAfter(t) {
      ReadableGap(next);
    }
    ReadableToken(t, tail);
    if GapBefore(t) {
      ReadableGap([Tok(t)] + tail);
    }
    SpacedIs(t, next);
  }

  lemma SpacedIs(t: Token, next: seq<Item>)
    ensures var core := [Tok(t)] + if GapAfter(t) then [Gap] + next else next;
      Spaced(t) + next == if GapBefore(t) then [Gap] + core else core
  {
    hide GapBefore, GapAfter;
  }

  lemma ReadableGap(next: seq<Item>)
    requires Readable(next)
    ensures Readable([Gap] + next)
  {
    hide Spellable;
    assert ([Gap] + next)[1..] == next;
  }

  lemma ReadableToken(t: Token, next: seq<Item>)
    requires Spellable(t) && Readable(next)
    requires t.Word? && next != [] ==> next[0].Gap? || !next[0].token.Word?
    ensures Readable([Tok(t)] + next)
  {
    hide Spellable;
    var items := [Tok(t)] + next;
    assert items[1..] == next && (next != [] ==> items[1] == next[0]);
  }

  lemma {:induction false} LayoutReadable(ts: seq<Token>)
    requires Legible(ts)
    ensures Readable(Layout(ts))
  {
    hide GapBefore, GapAfter, Spellable, Readable;
    if ts == [] {
      NothingReadable();
    } else {
      assert forall t | t in ts[1..] :: t in ts;
      assert ts[0] in ts;
      LayoutReadable(ts[1..]);
      if |ts| > 1 {
        assert Apart(ts[0], ts[1]);
        FirstOfLayout(ts[1..]);
      }
      SpacedReadable(ts[0], Layout(ts[1..]));
    }
  }

  lemma NothingReadable()
    ensures Readable([])
  {}

  lemma FirstOfLayout(ts: seq<Token>)
    requires ts != []
    ensures Layout(ts) != [] && Layout(ts)[0] == if GapBefore(ts[0]) then Gap else Tok(ts[0])
  {}

  /** What is written is read. */
  lemma WrittenIsRead(ts: seq<Token>)
    requires Legible(ts)
    ensures Lex(Written(ts)) == Some(ts)
  {
    hide Lex, Legible;
    LayoutReadable(ts);
    LayoutTokens(ts);
    LexSpelled(Layout(ts));
  }

  lemma {:induction false} LayoutAppend(a: seq<Token>, b: seq<Token>)
    ensures Layout(a + b) == Layout(a) + Layout(b)
  {
    hide Spaced;
    if a == [] {
      assert a + b == b;
    } else {
      assert (a + b)[1..] == a[1..] + b && (a + b)[0] == a[0];
      LayoutAppend(a[1..], b);
    }
  }

  lemma WrittenAppend(a: seq<Token>, b: seq<Token>)
    ensures Written(a + b) == Written(a) + Written(b)
  {
    LayoutAppend(a, b);
    TokensAppend(Layout(a), Layout(b));
  }

  lemma WrittenOne(t: Token)
    ensures Written([t]) ==
      (if GapBefore(t) then [Letter(' ')] else []) + (Spelled(t) + if GapAfter(t) then [Letter(' ')] else [])
  {
    hide GapBefore, GapAfter, Spelled;
    assert [t][1..] == [] && Layout([t]) == Spaced(t) + [];
    assert Spaced(t) + [] == Spaced(t);
    SpacedToken(t);
  }

  lemma LegibleAppend(a: seq<Token>, b: seq<Token>)
    requires Legible(a) && Legible(b) && (a != [] && b != [] ==> Apart(a[|a| - 1], b[0]))
    ensures Legible(a + b)
  {
    hide Apart, Spellable;
    forall i | 0 <= i < |a + b| - 1 ensures Apart((a + b)[i], (a + b)[i + 1]) {
      if i >= |a| {
        assert Apart(b[i - |a|], b[i - |a| + 1]);
      }
    }
  }

  // ---- Expressions ----

  /** `::` binds tighter than `->>`, and both group from the left. */
  datatype Expr =
    | Name(path: seq<string>)
    | Text(text: string)
    | Fixed(value: Value)
    | Apply(name: string, args: seq<Expr>)
    | Field(of: Expr, key: Expr)
    | Cast(of: Expr, kind: string)

  function PrintExpr(e: Expr): seq<Token>
    decreases e, 2
  {
    if e.Field? then PrintExpr(e.of) + ([Arrow] + PrintCast(e.key)) else PrintCast(e)
  }

  function PrintCast(e: Expr): seq<Token>
    decreases e, 1
  {
    if e.Cast? then PrintCast(e.of) + [CastSign, Word(e.kind)] else PrintPrimary(e)
  }

  function PrintPrimary(e: Expr): seq<Token>
    decreases e, 0
  {
    match e
    case Name(path) => PrintName(path)
    case Text(text) => [Quoted(text)]
    case Fixed(value) => [Given(value)]
    case Apply(name, args) => [Word(name), Open] + (PrintList(args) + [Close])
    case Field(of, key) => [Open] + ((PrintExpr(of) + ([Arrow] + PrintCast(key))) + [Close])
    case Cast(of, kind) => [Open] + ((PrintCast(of) + [CastSign, Word(kind)]) + [Close])
  }

  function PrintList(args: seq<Expr>): seq<Token> {
    if args == [] then []
    else if |args| == 1 then PrintExpr(args[0])
    else PrintExpr(args[0]) + ([Comma] + PrintList(args[1..]))
  }

  function PrintName(path: seq<string>): seq<Token> {
    if path == [] then []
    else if |path| == 1 then [Word(path[0])]
    else [Word(path[0]), Dot] + PrintName(path[1..])
  }

  datatype Parsed<T> = Failed | Parsed(value: T, rest: seq<Token>)

  function ParseExpr(ts: seq<Token>): (r: Parsed<Expr>)
    ensures r.Parsed? ==> |r.rest| < |ts|
    decreases |ts|, 2
  {
    var first := ParseCast(ts);
    if first.Failed? then Failed else FieldTail(first.value, first.rest)
  }

  function FieldTail(left: Expr, ts: seq<Token>): (r: Parsed<Expr>)
    ensures r.Parsed? ==> |r.rest| <= |ts|
    decreases |ts|, 3
  {
    if ts == [] || !ts[0].Arrow? then Parsed(left, ts) else
      var next := ParseCast(ts[1..]);
      if next.Failed? then Failed else FieldTail(Field(left, next.value), next.rest)
  }

  function ParseCast(ts: seq<Token>): (r: Parsed<Expr>)
    ensures r.Parsed? ==> |r.rest| < |ts|
    decreases |ts|, 1
  {
    var first := ParsePrimary(ts);
    if first.Failed? then Failed else CastTail(first.value, first.rest)
  }

  function CastTail(left: Expr, ts: seq<Token>): (r: Parsed<Expr>)
    ensures r.Parsed? ==> |r.rest| <= |ts|
    decreases |ts|
  {
    if ts == [] || !ts[0].CastSign? then Parsed(left, ts)
    else if |ts| >= 2 && ts[1].Word? then CastTail(Cast(left, ts[1].name), ts[2..])
    else Failed
  }

  function ParsePrimary(ts: seq<Token>): (r: Parsed<Expr>)
    ensures r.Parsed? ==> |r.rest| < |ts|
    decreases |ts|, 0
  {
    if ts == [] then Failed
    else match ts[0]
      case Quoted(text) => Parsed(Text(text), ts[1..])
      case Given(value) => Parsed(Fixed(value), ts[1..])
      case Open => Enclosed(ParseExpr(ts[1..]))
      case Word(name) =>
        if |ts| >= 3 && ts[1].Open? && ts[2].Close? then Parsed(Apply(name, []), ts[3..])
        else if |ts| >= 2 && ts[1].Open? then
          var args := ParseList(ts[2..]);
          if args.Parsed? && args.rest != [] && args.rest[0].Close? then Parsed(Apply(name, args.value), args.rest[1..])
          else Failed
        else
          var path := ParseName(ts);
          Parsed(Name(path.0), path.1)
      case _ => Failed
  }

  /** What stands before a closing parenthesis. */
  function Enclosed<T>(inner: Parsed<T>): (r: Parsed<T>)
    ensures r.Parsed? ==> inner.Parsed? && |r.rest| < |inner.rest|
  {
    if inner.Parsed? && inner.rest != [] && inner.rest[0].Close? then Parsed(inner.value, inner.rest[1..]) else Failed
  }

  function ParseName(ts: seq<Token>): (r: (seq<string>, seq<Token>))
    requires ts != [] && ts[0].Word?
    ensures |r.1| < |ts|
    decreases |ts|
  {
    if |ts| >= 3 && ts[1].Dot? && ts[2].Word? then
      var more := ParseName(ts[2..]);
      ([ts[0].name] + more.0, more.1)
    else ([ts[0].name], ts[1..])
  }

  function ParseList(ts: seq<Token>): (r: Parsed<seq<Expr>>)
    ensures r.Parsed? ==> |r.rest| < |ts|
    decreases |ts|, 3
  {
    var first := ParseExpr(ts);
    if first.Failed? then Failed
    else if first.rest != [] && first.rest[0].Comma? then
      var more := ParseList(first.rest[1..]);
      if more.Failed? then Failed else Parsed([first.value] + more.value, more.rest)
    else Parsed([first.value], first.rest)
  }

  // ---- What is printed is parsed ----

  /** Every name in the expression has a part. */
  predicate Named(e: Expr) {
    match e
    case Name(path) => path != []
    case Apply(_, args) => forall a | a in args :: Named(a)
    case Field(of, key) => Named(of) && Named(key)
    case Cast(of, _) => Named(of)
    case _ => true
  }

  predicate AllNamed(es: seq<Expr>) {
    forall e | e in es :: Named(e)
  }

  /** The next token does not go on a primary. */
  predicate EndsPrimary(rest: seq<Token>) {
    rest == [] || !(rest[0].Open? || rest[0].Dot?)
  }

  predicate EndsCast(rest: seq<Token>) {
    EndsPrimary(rest) && (rest == [] || !rest[0].CastSign?)
  }

  predicate EndsExpr(rest: seq<Token>) {
    EndsCast(rest) && (rest == [] || !rest[0].Arrow?)
  }

  lemma {:induction false} NameParses(path: seq<string>, rest: seq<Token>)
    requires path != [] && EndsPrimary(rest)
    ensures var ts := PrintName(path) + rest;
      && ts != [] && ts[0].Word? && ParseName(ts) == (path, rest)
      && !(|ts| >= 2 && ts[1].Open?)
  {
    var ts := PrintName(path) + rest;
    if |path| == 1 {
      assert ts[1..] == rest && path == [path[0]];
    } else {
      var more := PrintName(path[1..]) + rest;
      NameParses(path[1..], rest);
      assert ts == [Word(path[0]), Dot] + more && ts[2..] == more;
      assert path == [path[0]] + path[1..];
    }
  }

  lemma {:induction false} FieldParses(e: Expr, rest: seq<Token>)
    requires e.Field? && Named(e) && EndsCast(rest)
    ensures ParseExpr((PrintExpr(e.of) + ([Arrow] + PrintCast(e.key))) + rest) == FieldTail(e, rest)
    decreases e, 0
  {
    var more := [Arrow] + (PrintCast(e.key) + rest);
    assert (PrintExpr(e.of) + ([Arrow] + PrintCast(e.key))) + rest == PrintExpr(e.of) + more;
    ExprParses(e.of, more);
    CastParses(e.key, rest);
    assert more[1..] == PrintCast(e.key) + rest;
  }

  lemma {:induction false} CastOn(e: Expr, rest: seq<Token>)
    requires e.Cast? && Named(e) && EndsPrimary(rest)
    ensures ParseCast((PrintCast(e.of) + [CastSign, Word(e.kind)]) + rest) == CastTail(e, rest)
    decreases e, 0
  {
    var more := [CastSign, Word(e.kind)] + rest;
    assert (PrintCast(e.of) + [CastSign, Word(e.kind)]) + rest == PrintCast(e.of) + more;
    CastParses(e.of, more);
    assert more[2..] == rest;
  }

  lemma EnclosedParses(inner: seq<Token>, e: Expr, rest: seq<Token>)
    requires ParseExpr(inner + ([Close] + rest)) == Parsed(e, [Close] + rest)
    ensures ParsePrimary(([Open] + (inner + [Close])) + rest) == Parsed(e, rest)
  {
    var ts := ([Open] + (inner + [Close])) + rest;
    assert ts[1..] == inner + ([Close] + rest);
    assert ([Close] + rest)[1..] == rest;
  }

  lemma {:induction false} ApplyParses(e: Expr, rest: seq<Token>)
    requires e.Apply? && Named(e)
    ensures ParsePrimary(PrintPrimary(e) + rest) == Parsed(e, rest)
    decreases e, 0
  {
    var ts := PrintPrimary(e) + rest;
    var more := [Close] + rest;
    assert more[1..] == rest;
    if e.args == [] {
      assert PrintList(e.args) + [Close] == [Close];
      assert ts == [Word(e.name), Open, Close] + rest && ts[3..] == rest;
    } else {
      assert ts == [Word(e.name), Open] + (PrintList(e.args) + more) && ts[2..] == PrintList(e.args) + more;
      ListParses(e.args, more);
      NotClosed(e.args, more);
    }
  }

  /** The first token of an expression closes nothing. */
  lemma {:induction false} NotClosed(args: seq<Expr>, rest: seq<Token>)
    requires args != [] && AllNamed(args)
    ensures PrintList(args) != [] && !PrintList(args)[0].Close?
  {
    assert args[0] in args;
    BeginsNot(args[0]);
  }

  lemma {:induction false} BeginsNot(e: Expr)
    requires Named(e)
    ensures PrintExpr(e) != [] && !PrintExpr(e)[0].Close?
    ensures PrintCast(e) != [] && !PrintCast(e)[0].Close?
    ensures PrintPrimary(e) != [] && !PrintPrimary(e)[0].Close?
  {
    match e
    case Field(of, key) => BeginsNot(of);
    case Cast(of, _) => BeginsNot(of);
    case _ => assert PrintExpr(e) == PrintCast(e) && PrintCast(e) == PrintPrimary(e);
  }

  lemma {:induction false} PrimaryParses(e: Expr, rest: seq<Token>)
    requires Named(e) && EndsPrimary(rest)
    ensures ParsePrimary(PrintPrimary(e) + rest) == Parsed(e, rest)
    decreases e, 1
  {
    match e
    case Name(path) => NameParses(path, rest);
    case Apply(_, _) => ApplyParses(e, rest);
    case Field(of, key) =>
      FieldParses(e, [Close] + rest);
      EnclosedParses(PrintExpr(of) + ([Arrow] + PrintCast(key)), e, rest);
    case Cast(of, kind) =>
      CastOn(e, [Close] + rest);
      EnclosedParses(PrintCast(of) + [CastSign, Word(kind)], e, rest);
    case _ => assert (PrintPrimary(e) + rest)[1..] == rest;
  }

  lemma {:induction false} CastParses(e: Expr, rest: seq<Token>)
    requires Named(e) && EndsPrimary(rest)
    ensures ParseCast(PrintCast(e) + rest) == CastTail(e, rest)
    decreases e, 2
  {
    if e.Cast? {
      CastOn(e, rest);
    } else {
      PrimaryParses(e, rest);
    }
  }

  lemma {:induction false} ExprParses(e: Expr, rest: seq<Token>)
    requires Named(e) && EndsCast(rest)
    ensures ParseExpr(PrintExpr(e) + rest) == FieldTail(e, rest)
    decreases e, 3
  {
    if e.Field? {
      FieldParses(e, rest);
    } else {
      CastParses(e, rest);
    }
  }

  lemma {:induction false} ListParses(args: seq<Expr>, rest: seq<Token>)
    requires args != [] && AllNamed(args) && EndsExpr(rest) && (rest != [] ==> !rest[0].Comma?)
    ensures ParseList(PrintList(args) + rest) == Parsed(args, rest)
    decreases args
  {
    assert args[0] in args && args == [args[0]] + args[1..];
    if |args| == 1 {
      assert PrintList(args) == PrintExpr(args[0]) && args == [args[0]];
      ExprParses(args[0], rest);
      assert FieldTail(args[0], rest) == Parsed(args[0], rest);
    } else {
      assert AllNamed(args[1..]);
      var more := [Comma] + (PrintList(args[1..]) + rest);
      assert PrintList(args) + rest == PrintExpr(args[0]) + more && more[1..] == PrintList(args[1..]) + rest;
      ExprParses(args[0], more);
      ListParses(args[1..], rest);
    }
  }

  // ---- What is printed can be written ----

  /** The words are words, and no text has a quote in it. */
  predicate Wordy(e: Expr) {
    match e
    case Name(path) => forall w | w in path :: IsWord(w)
    case Text(text) => Lacks(text, '\'')
    case Fixed(_) => true
    case Apply(name, args) => IsWord(name) && forall a | a in args :: Wordy(a)
    case Field(of, key) => Wordy(of) && Wordy(key)
    case Cast(of, kind) => Wordy(of) && IsWord(kind)
  }

  predicate AllWordy(es: seq<Expr>) {
    forall e | e in es :: Wordy(e)
  }

  lemma LegibleOne(t: Token)
    requires Spellable(t)
    ensures Legible([t])
  {}

  /** A sign between two parts keeps their words apart. */
  lemma LegibleJoin(a: seq<Token>, t: Token, b: seq<Token>)
    requires Legible(a) && Legible(b) && Spellable(t) && !t.Word?
    ensures Legible(a + ([t] + b)) && Legible([t] + b)
  {
    hide Legible, Spellable;
    LegibleOne(t);
    LegibleAppend([t], b);
    LegibleAppend(a, [t] + b);
  }

  lemma LegibleEnclosed(inner: seq<Token>)
    requires Legible(inner)
    ensures Legible([Open] + (inner + [Close])) && Legible(inner + [Close])
  {
    hide Legible;
    LegibleNone();
    assert [Close] + [] == [Close];
    LegibleJoin(inner, Close, []);
    LegibleJoin([], Open, inner + [Close]);
  }

  lemma LegibleNone()
    ensures Legible([])
  {}

  lemma {:induction false} NameLegible(path: seq<string>)
    requires forall w | w in path :: IsWord(w)
    ensures Legible(PrintName(path))
  {
    if path == [] {
    } else {
      assert path[0] in path;
      LegibleOne(Word(path[0]));
      if |path| > 1 {
        assert forall w | w in path[1..] :: w in path;
        NameLegible(path[1..]);
        hide Legible, IsWord;
        LegibleJoin([Word(path[0])], Dot, PrintName(path[1..]));
        assert PrintName(path) == [Word(path[0])] + ([Dot] + PrintName(path[1..]));
      }
    }
  }

  lemma CastLegible(of: seq<Token>, kind: string)
    requires Legible(of) && IsWord(kind)
    ensures Legible(of + [CastSign, Word(kind)])
  {
    hide Legible, IsWord;
    LegibleOne(Word(kind));
    LegibleJoin(of, CastSign, [Word(kind)]);
    assert [CastSign] + [Word(kind)] == [CastSign, Word(kind)];
  }

  lemma ApplyLegible(name: string, list: seq<Token>)
    requires Legible(list) && IsWord(name)
    ensures Legible([Word(name), Open] + (list + [Close]))
  {
    hide Legible, IsWord;
    LegibleOne(Word(name));
    LegibleEnclosed(list);
    LegibleJoin([Word(name)], Open, list + [Close]);
    assert [Word(name)] + ([Open] + (list + [Close])) == [Word(name), Open] + (list + [Close]);
  }

  lemma PrintsAlike(e: Expr)
    requires !e.Field? && !e.Cast?
    ensures PrintExpr(e) == PrintPrimary(e) && PrintCast(e) == PrintPrimary(e)
  {}

  lemma {:induction false} ExprLegible(e: Expr)
    requires Wordy(e)
    ensures Legible(PrintExpr(e)) && Legible(PrintCast(e)) && Legible(PrintPrimary(e))
    decreases e, 1
  {
    hide Legible, IsWord;
    if !e.Field? && !e.Cast? {
      PrintsAlike(e);
    }
    match e
    case Name(path) => NameLegible(path);
    case Text(text) => LegibleOne(Quoted(text));
    case Fixed(value) => LegibleOne(Given(value));
    case Apply(name, args) =>
      ListLegible(args);
      ApplyLegible(name, PrintList(args));
    case Field(of, key) =>
      ExprLegible(of);
      ExprLegible(key);
      LegibleJoin(PrintExpr(of), Arrow, PrintCast(key));
      LegibleEnclosed(PrintExpr(of) + ([Arrow] + PrintCast(key)));
    case Cast(of, kind) =>
      ExprLegible(of);
      CastLegible(PrintCast(of), kind);
      LegibleEnclosed(PrintCast(of) + [CastSign, Word(kind)]);
  }

  lemma {:induction false} ListLegible(args: seq<Expr>)
    requires AllWordy(args)
    ensures Legible(PrintList(args))
    decreases args
  {
    if args == [] {
      LegibleNone();
    } else {
      hide Legible;
      assert args[0] in args;
      ExprLegible(args[0]);
      if |args| > 1 {
        assert AllWordy(args[1..]);
        ListLegible(args[1..]);
        LegibleJoin(PrintExpr(args[0]), Comma, PrintList(args[1..]));
      }
    }
  }

  // ---- Conditions ----

  datatype Operator = IsEqual | IsLess | IsLike

  datatype Cond =
    | Compare(operator: Operator, left: Expr, right: Expr)
    | OneOf(left: Expr, list: seq<Expr>)
    | Holds(call: Expr)

  function OperatorToken(op: Operator): Token {
    match op
    case IsEqual => Equals
    case IsLess => LessThan
    case IsLike => Word("ILIKE")
  }

  function OperatorOf(t: Token): Option<Operator> {
    if t == Equals then Some(IsEqual) else if t == LessThan then Some(IsLess)
    else if t == Word("ILIKE") then Some(IsLike) else None
  }

  function PrintCond(c: Cond): seq<Token> {
    match c
    case Compare(op, left, right) => PrintExpr(left) + ([OperatorToken(op)] + PrintExpr(right))
    case OneOf(left, list) => PrintExpr(left) + ([Word("IN"), Open] + (PrintList(list) + [Close]))
    case Holds(call) => PrintExpr(call)
  }

  function ParseCond(ts: seq<Token>): (r: Parsed<Cond>)
    ensures r.Parsed? ==> |r.rest| < |ts|
  {
    var left := ParseExpr(ts);
    if left.Failed? then Failed
    else if left.rest != [] && OperatorOf(left.rest[0]).Some? then
      var right := ParseExpr(left.rest[1..]);
      if right.Failed? then Failed
      else Parsed(Compare(OperatorOf(left.rest[0]).value, left.value, right.value), right.rest)
    else if |left.rest| >= 2 && left.rest[0] == Word("IN") && left.rest[1].Open? then
      var list := Enclosed(ParseList(left.rest[2..]));
      if list.Failed? then Failed else Parsed(OneOf(left.value, list.value), list.rest)
    else Parsed(Holds(left.value), left.rest)
  }

  predicate CondNamed(c: Cond) {
    match c
    case Compare(_, left, right) => Named(left) && Named(right)
    case OneOf(left, list) => Named(left) && AllNamed(list) && list != []
    case Holds(call) => Named(call)
  }

  lemma OperatorIs(op: Operator)
    ensures OperatorOf(OperatorToken(op)) == Some(op)
    ensures !OperatorToken(op).Open? && !OperatorToken(op).Dot? && !OperatorToken(op).CastSign? && !OperatorToken(op).Arrow?
  {}

  /** Where a condition may end. */
  predicate EndsCond(rest: seq<Token>) {
    rest == [] || rest[0].Close? || rest[0] == Word("AND") || rest[0] == Word("OR")
  }

  lemma EndsAll(rest: seq<Token>)
    requires EndsCond(rest)
    ensures EndsExpr(rest) && (rest != [] ==> OperatorOf(rest[0]) == None && rest[0] != Word("IN"))
  {
    assert "AND"[0] == 'A' && "OR"[0] == 'O' && "ILIKE"[0] == 'I' && "IN"[0] == 'I';
  }

  lemma CompareParses(op: Operator, left: Expr, right: Expr, rest: seq<Token>)
    requires Named(left) && Named(right) && EndsCond(rest)
    ensures ParseCond(PrintExpr(left) + ([OperatorToken(op)] + (PrintExpr(right) + rest))) ==
      Parsed(Compare(op, left, right), rest)
  {
    EndsAll(rest);
    OperatorIs(op);
    hide ParseExpr, PrintExpr, OperatorOf, OperatorToken, EndsCond;
    var more := [OperatorToken(op)] + (PrintExpr(right) + rest);
    ExprParses(left, more);
    assert more[1..] == PrintExpr(right) + rest;
    ExprParses(right, rest);
  }

  lemma OneOfParses(left: Expr, list: seq<Expr>, rest: seq<Token>)
    requires Named(left) && AllNamed(list) && list != []
    ensures ParseCond(PrintExpr(left) + ([Word("IN"), Open] + (PrintList(list) + ([Close] + rest)))) ==
      Parsed(OneOf(left, list), rest)
  {
    WordIsNoOperator("IN");
    hide ParseExpr, PrintExpr, ParseList, PrintList, OperatorOf;
    var more := [Word("IN"), Open] + (PrintList(list) + ([Close] + rest));
    ExprParses(left, more);
    assert more[2..] == PrintList(list) + ([Close] + rest) && ([Close] + rest)[1..] == rest;
    ListParses(list, [Close] + rest);
  }

  /** A condition that is printed is parsed. */
  lemma CondParses(c: Cond, rest: seq<Token>)
    requires CondNamed(c) && EndsCond(rest)
    ensures ParseCond(PrintCond(c) + rest) == Parsed(c, rest)
  {
    hide ParseCond, PrintExpr, PrintList, OperatorToken, EndsCond, Named, AllNamed;
    match c
    case Compare(op, left, right) =>
      CompareParses(op, left, right, rest);
      assert PrintCond(c) + rest == PrintExpr(left) + ([OperatorToken(op)] + (PrintExpr(right) + rest));
    case OneOf(left, list) =>
      OneOfParses(left, list, rest);
      OneOfRegroup(PrintExpr(left), [Word("IN"), Open], PrintList(list), [Close], rest);
    case Holds(call) => HoldsParses(call, rest);
  }

  lemma OneOfRegroup<T>(left: seq<T>, word: seq<T>, list: seq<T>, close: seq<T>, rest: seq<T>)
    ensures (left + (word + (list + close))) + rest == left + (word + (list + (close + rest)))
  {}

  lemma HoldsParses(call: Expr, rest: seq<Token>)
    requires Named(call) && EndsCond(rest)
    ensures ParseCond(PrintExpr(call) + rest) == Parsed(Holds(call), rest)
  {
    EndsAll(rest);
    hide ParseExpr, PrintExpr, OperatorOf, EndsCond;
    ExprParses(call, rest);
  }

  /** An empty list is not parsed. */
  lemma NoListFails(left: Expr, rest: seq<Token>)
    requires Named(left)
    ensures ParseCond(PrintCond(OneOf(left, [])) + rest).Failed?
  {
    NoListTokens(left, rest);
    NothingToParse(rest);
    WordIsNoOperator("IN");
    hide ParseExpr, PrintExpr, ParseList, OperatorOf, PrintCond;
    var more := [Word("IN"), Open] + ([Close] + rest);
    assert more[2..] == [Close] + rest;
    ExprParses(left, more);
  }

  lemma NoListTokens(left: Expr, rest: seq<Token>)
    ensures PrintCond(OneOf(left, [])) + rest == PrintExpr(left) + ([Word("IN"), Open] + ([Close] + rest))
  {
    hide PrintExpr;
    assert PrintList([]) == [];
    OneOfRegroup(PrintExpr(left), [Word("IN"), Open], [], [Close], rest);
  }

  lemma NothingToParse(rest: seq<Token>)
    ensures ParseList([Close] + rest).Failed?
  {
    assert ParsePrimary([Close] + rest).Failed?;
    assert ParseCast([Close] + rest).Failed?;
    assert ParseExpr([Close] + rest).Failed?;
  }

  lemma WordIsNoOperator(name: string)
    requires name != "ILIKE"
    ensures OperatorOf(Word(name)) == None
  {}

  // ---- Reading text ----

  function ReadCond(ps: seq<Piece>): Option<Cond> {
    var ts := Lex(ps);
    if ts.None? then None else
      var c := ParseCond(ts.value);
      if c.Parsed? && c.rest == [] then Some(c.value) else None
  }

  predicate CondWordy(c: Cond) {
    match c
    case Compare(_, left, right) => Wordy(left) && Wordy(right)
    case OneOf(left, list) => Wordy(left) && AllWordy(list)
    case Holds(call) => Wordy(call)
  }

  lemma CondLegible(c: Cond)
    requires CondWordy(c)
    ensures Legible(PrintCond(c))
  {
    hide Legible, PrintExpr, PrintList;
    match c
    case Compare(op, left, right) =>
      ExprLegible(left);
      ExprLegible(right);
      KeywordJoin(PrintExpr(left), OperatorToken(op), PrintExpr(right));
    case OneOf(left, list) =>
      ExprLegible(left);
      ListLegible(list);
      LegibleEnclosed(PrintList(list));
      KeywordJoin(PrintExpr(left), Word("IN"), [Open] + (PrintList(list) + [Close]));
      assert [Word("IN")] + ([Open] + (PrintList(list) + [Close])) == [Word("IN"), Open] + (PrintList(list) + [Close]);
    case Holds(call) => ExprLegible(call);
  }

  /** A keyword with blanks around it keeps words apart as well. */
  lemma KeywordJoin(a: seq<Token>, t: Token, b: seq<Token>)
    requires Legible(a) && Legible(b) && Spellable(t) && (t.Word? ==> GapBefore(t) && GapAfter(t))
    ensures Legible(a + ([t] + b))
  {
    hide Legible, Spellable, GapBefore, GapAfter;
    LegibleOne(t);
    LegibleAppend([t], b);
    LegibleAppend(a, [t] + b);
  }

  /** A condition that is written is read again. */
  lemma CondReads(c: Cond)
    requires CondNamed(c) && CondWordy(c)
    ensures ReadCond(Written(PrintCond(c))) == Some(c)
  {
    hide Lex, ParseCond, PrintCond, Written, Legible;
    CondLegible(c);
    WrittenIsRead(PrintCond(c));
    CondParses(c, []);
    assert PrintCond(c) + [] == PrintCond(c);
  }

  /** ORDER BY and a list of expressions. */
  function ReadOrder(ps: seq<Piece>): Option<seq<Expr>> {
    var ts := Lex(ps);
    if ts.None? || |ts.value| < 2 || ts.value[..2] != [Word("ORDER"), Word("BY")] then None else
      var list := ParseList(ts.value[2..]);
      if list.Parsed? && list.rest == [] then Some(list.value) else None
  }

  const ORDER_WORDS: seq<Token> := [Word("ORDER"), Word("BY")]

  lemma OrderReads(list: seq<Expr>)
    requires list != [] && AllNamed(list) && AllWordy(list)
    ensures ReadOrder(Written(ORDER_WORDS + PrintList(list))) == Some(list)
  {
    hide Lex, ParseList, PrintList, Written;
    var ts := ORDER_WORDS + PrintList(list);
    ListLegible(list);
    assert Legible(ORDER_WORDS) && GapAfter(ORDER_WORDS[1]);
    hide Legible;
    LegibleAppend(ORDER_WORDS, PrintList(list));
    WrittenIsRead(ts);
    assert ts[..2] == [Word("ORDER"), Word("BY")] && ts[2..] == PrintList(list) && PrintList(list) + [] == PrintList(list);
    ListParses(list, []);
  }

  /** LIMIT and OFFSET, with their two values. */
  function ReadPage(ps: seq<Piece>): Option<(Value, Value)> {
    var ts := Lex(ps);
    if ts.Some? && |ts.value| == 4 && ts.value[0] == Word("LIMIT") && ts.value[1].Given? && ts.value[2] == Word("OFFSET") &&
       ts.value[3].Given?
    then Some((ts.value[1].value, ts.value[3].value)) else None
  }

  lemma PageReads(limit: Value, offset: Value)
    ensures ReadPage(Written([Word("LIMIT"), Given(limit), Word("OFFSET"), Given(offset)])) == Some((limit, offset))
  {
    PageWords();
    hide Lex, Written;
    WrittenIsRead([Word("LIMIT"), Given(limit), Word("OFFSET"), Given(offset)]);
  }

  lemma PageWords()
    ensures IsWord("LIMIT") && IsWord("OFFSET")
  {}

  /** `e AS "label"`, and `CASE WHEN e IS NOT NULL THEN x ELSE y END AS "label"`. */
  datatype Selected =
    | Plain(value: Expr, text: string)
    | Whether(tested: Expr, yes: Expr, no: Expr, text: string)

  const WHEN_WORDS: seq<Token> := [Word("CASE"), Word("WHEN")]
  const THEN_WORDS: seq<Token> := [Word("IS"), Word("NOT"), Word("NULL"), Word("THEN")]
  const ELSE_WORDS: seq<Token> := [Word("ELSE")]
  const END_WORDS: seq<Token> := [Word("END"), Word("AS")]

  function PrintSelected(s: Selected): seq<Token> {
    match s
    case Plain(value, text) => PrintExpr(value) + [Word("AS"), Label(text)]
    case Whether(tested, yes, no, text) =>
      WHEN_WORDS + (PrintExpr(tested) + (THEN_WORDS +
        (PrintExpr(yes) + (ELSE_WORDS + (PrintExpr(no) + (END_WORDS + [Label(text)]))))))
  }

  /** The text after some words, if it begins with them. */
  function Skip(words: seq<Token>, ts: seq<Token>): Option<seq<Token>> {
    if words <= ts then Some(ts[|words|..]) else None
  }

  function ParseAfter(words: seq<Token>, ts: seq<Token>): Parsed<Expr> {
    var rest := Skip(words, ts);
    if rest.None? then Failed else ParseExpr(rest.value)
  }

  function ParseSelected(ts: seq<Token>): Option<Selected> {
    if Skip(WHEN_WORDS, ts).Some? then
      var tested := ParseAfter(WHEN_WORDS, ts);
      if tested.Failed? then None else
        var yes := ParseAfter(THEN_WORDS, tested.rest);
        if yes.Failed? then None else
          var no := ParseAfter(ELSE_WORDS, yes.rest);
          if no.Failed? then None else
            var last := Skip(END_WORDS, no.rest);
            if last.Some? && |last.value| == 1 && last.value[0].Label?
            then Some(Whether(tested.value, yes.value, no.value, last.value[0].text)) else None
    else
      var e := ParseExpr(ts);
      if e.Parsed? && |e.rest| == 2 && e.rest[0] == Word("AS") && e.rest[1].Label?
      then Some(Plain(e.value, e.rest[1].text)) else None
  }

  function ReadSelected(ps: seq<Piece>): Option<Selected> {
    var ts := Lex(ps);
    if ts.None? then None else ParseSelected(ts.value)
  }

  lemma AfterWords(words: seq<Token>, e: Expr, rest: seq<Token>)
    requires Named(e) && EndsExpr(rest)
    ensures ParseAfter(words, words + (PrintExpr(e) + rest)) == Parsed(e, rest)
  {
    hide ParseExpr, PrintExpr;
    var ts := words + (PrintExpr(e) + rest);
    assert ts[|words|..] == PrintExpr(e) + rest;
    ExprParses(e, rest);
  }

  lemma WordsLegible()
    ensures Legible(WHEN_WORDS) && Legible(THEN_WORDS) && Legible(ELSE_WORDS) && Legible(END_WORDS)
    ensures GapAfter(WHEN_WORDS[1]) && GapBefore(THEN_WORDS[0]) && GapAfter(THEN_WORDS[3])
    ensures GapBefore(ELSE_WORDS[0]) && GapAfter(ELSE_WORDS[0]) && GapBefore(END_WORDS[0]) && GapBefore(END_WORDS[1])
  {
    hide Legible, GapBefore, GapAfter;
    ThenLegible();
    ElseLegible();
    CaseLegible();
  }

  lemma CaseLegible()
    ensures Legible(WHEN_WORDS) && GapAfter(WHEN_WORDS[1])
    ensures Legible(END_WORDS) && GapBefore(END_WORDS[0]) && GapBefore(END_WORDS[1])
  {}

  lemma ThenLegible()
    ensures Legible(THEN_WORDS) && GapBefore(THEN_WORDS[0]) && GapAfter(THEN_WORDS[3])
  {
    IsNotLegible();
    NullThenLegible();
    hide Legible, GapAfter;
    LegibleAppend([Word("IS"), Word("NOT")], [Word("NULL"), Word("THEN")]);
    assert THEN_WORDS == [Word("IS"), Word("NOT")] + [Word("NULL"), Word("THEN")];
  }

  lemma IsNotLegible()
    ensures Legible([Word("IS"), Word("NOT")])
  {}

  lemma NullThenLegible()
    ensures Legible([Word("NULL"), Word("THEN")]) && GapBefore(Word("NULL")) && GapAfter(Word("THEN"))
  {}

  lemma ElseLegible()
    ensures Legible(ELSE_WORDS) && GapBefore(ELSE_WORDS[0]) && GapAfter(ELSE_WORDS[0])
  {}

  lemma WhetherLegible(s: Selected)
    requires s.Whether? && Wordy(s.tested) && Wordy(s.yes) && Wordy(s.no) && Lacks(s.text, '"')
    ensures Legible(PrintSelected(s))
  {
    hide PrintExpr, GapBefore, GapAfter;
    WordsLegible();
    ExprLegible(s.tested);
    ExprLegible(s.yes);
    ExprLegible(s.no);
    LegibleOne(Label(s.text));
    hide Legible;
    LegibleAppend(END_WORDS, [Label(s.text)]);
    var last := END_WORDS + [Label(s.text)];
    LegibleAppend(PrintExpr(s.no), last);
    LegibleAppend(ELSE_WORDS, PrintExpr(s.no) + last);
    var third := ELSE_WORDS + (PrintExpr(s.no) + last);
    LegibleAppend(PrintExpr(s.yes), third);
    LegibleAppend(THEN_WORDS, PrintExpr(s.yes) + third);
    var second := THEN_WORDS + (PrintExpr(s.yes) + third);
    LegibleAppend(PrintExpr(s.tested), second);
    LegibleAppend(WHEN_WORDS, PrintExpr(s.tested) + second);
  }

  lemma PlainLegible(s: Selected)
    requires s.Plain? && Wordy(s.value) && Lacks(s.text, '"')
    ensures Legible(PrintSelected(s))
  {
    hide PrintExpr;
    ExprLegible(s.value);
    assert GapBefore(Word("AS")) && Legible([Word("AS"), Label(s.text)]);
    hide Legible, GapBefore, GapAfter;
    LegibleAppend(PrintExpr(s.value), [Word("AS"), Label(s.text)]);
  }

  lemma WhetherReads(s: Selected)
    requires s.Whether? && Named(s.tested) && Named(s.yes) && Named(s.no)
    requires Wordy(s.tested) && Wordy(s.yes) && Wordy(s.no) && Lacks(s.text, '"')
    ensures Legible(PrintSelected(s)) && ParseSelected(PrintSelected(s)) == Some(s)
    ensures ReadSelected(Written(PrintSelected(s))) == Some(s)
  {
    hide Lex, ParseExpr, PrintExpr, ParseAfter, Written, Legible;
    WhetherLegible(s);
    WrittenIsRead(PrintSelected(s));
    var last := END_WORDS + [Label(s.text)];
    var third := ELSE_WORDS + (PrintExpr(s.no) + last);
    var second := THEN_WORDS + (PrintExpr(s.yes) + third);
    AfterWords(ELSE_WORDS, s.no, last);
    AfterWords(THEN_WORDS, s.yes, third);
    AfterWords(WHEN_WORDS, s.tested, second);
    assert last[|END_WORDS|..] == [Label(s.text)];
  }

  lemma PlainReads(s: Selected)
    requires s.Plain? && Named(s.value) && PrintExpr(s.value) != [] && PrintExpr(s.value)[0] != Word("CASE")
    requires Wordy(s.value) && Lacks(s.text, '"')
    ensures Legible(PrintSelected(s)) && ParseSelected(PrintSelected(s)) == Some(s)
    ensures ReadSelected(Written(PrintSelected(s))) == Some(s)
  {
    hide Lex, ParseExpr, PrintExpr, Written, Legible;
    PlainLegible(s);
    WrittenIsRead(PrintSelected(s));
    var last := [Word("AS"), Label(s.text)];
    ExprParses(s.value, last);
    assert PrintSelected(s)[0] == PrintExpr(s.value)[0];
    assert WHEN_WORDS[0] == Word("CASE");
  }

  // ---- The text of an expression without values ----

  function ExprText(e: Expr): string
    decreases e, 2
  {
    if e.Field? then ExprText(e.of) + ("->>" + CastText(e.key)) else CastText(e)
  }

  function CastText(e: Expr): string
    decreases e, 1
  {
    if e.Cast? then CastText(e.of) + ("::" + e.kind) else PrimaryText(e)
  }

  function PrimaryText(e: Expr): string
    decreases e, 0
  {
    match e
    case Name(path) => NameText(path)
    case Text(text) => "'" + (text + "'")
    case Fixed(_) => ""
    case Apply(name, args) => name + ("(" + (ListText(args) + ")"))
    case Field(of, key) => "(" + ((ExprText(of) + ("->>" + CastText(key))) + ")")
    case Cast(of, kind) => "(" + ((CastText(of) + ("::" + kind)) + ")")
  }

  function ListText(args: seq<Expr>): string {
    if args == [] then ""
    else if |args| == 1 then ExprText(args[0])
    else ExprText(args[0]) + (", " + ListText(args[1..]))
  }

  function NameText(path: seq<string>): string {
    if path == [] then "" else if |path| == 1 then path[0] else path[0] + ("." + NameText(path[1..]))
  }

  predicate IsKeyword(name: string) {
    name in BEFORE || name in AFTER
  }

  /** No values, and no word that is written with blanks. */
  predicate Textual(e: Expr) {
    match e
    case Name(path) => forall w | w in path :: !IsKeyword(w)
    case Text(_) => true
    case Fixed(_) => false
    case Apply(name, args) => !IsKeyword(name) && forall a | a in args :: Textual(a)
    case Field(of, key) => Textual(of) && Textual(key)
    case Cast(of, kind) => Textual(of) && !IsKeyword(kind)
  }

  lemma {:induction false} LettersAppend(a: string, b: string)
    ensures Letters(a + b) == Letters(a) + Letters(b)
  {
    if a == "" {
      assert a + b == b;
    } else {
      assert (a + b)[1..] == a[1..] + b;
      LettersAppend(a[1..], b);
    }
  }

  lemma WordWritten(name: string)
    requires !IsKeyword(name)
    ensures Written([Word(name)]) == Letters(name)
  {
    WrittenOne(Word(name));
    assert [] + (Letters(name) + []) == Letters(name);
  }

  lemma ShortLetters()
    ensures Letters("(") == [Letter('(')] && Letters(")") == [Letter(')')] && Letters(".") == [Letter('.')]
    ensures Letters("'") == [Letter('\'')] && Letters("\"") == [Letter('"')]
    ensures Letters("->>") == [Letter('-'), Letter('>'), Letter('>')] && Letters("::") == [Letter(':'), Letter(':')]
    ensures Letters(", ") == [Letter(','), Letter(' ')] && Letters(" < ") == [Letter(' '), Letter('<'), Letter(' ')]
    ensures Letters(" = ") == [Letter(' '), Letter('='), Letter(' ')]
  {
    assert Letters("") == [];
    assert ", "[1..] == " " && "::"[1..] == ":" && "->>"[1..] == ">>" && ">>"[1..] == ">";
    assert Letters(" ") == [Letter(' ')] && Letters(":") == [Letter(':')] && Letters(">") == [Letter('>')];
    assert Letters(">>") == [Letter('>')] + Letters(">");
    assert " < "[1..] == "< " && "< "[1..] == " " && Letters("< ") == [Letter('<')] + Letters(" ");
    assert " = "[1..] == "= " && "= "[1..] == " " && Letters("= ") == [Letter('=')] + Letters(" ");
  }

  lemma SignsWritten()
    ensures Written([Open]) == Letters("(") && Written([Close]) == Letters(")") && Written([Dot]) == Letters(".")
    ensures Written([Arrow]) == Letters("->>") && Written([CastSign]) == Letters("::")
    ensures Written([Comma]) == Letters(", ")
    ensures Written([LessThan]) == Letters(" < ") && Written([Equals]) == Letters(" = ")
  {
    hide Letters;
    ShortLetters();
    WrittenOne(Open);
    WrittenOne(Close);
    WrittenOne(Dot);
    WrittenOne(Arrow);
    WrittenOne(CastSign);
    WrittenOne(Comma);
    WrittenOne(LessThan);
    WrittenOne(Equals);
  }

  lemma QuotedWritten(text: string)
    ensures Written([Quoted(text)]) == Letters("'" + (text + "'"))
    ensures Written([Label(text)]) == Letters("\"" + (text + "\""))
  {
    hide Letters;
    ShortLetters();
    WrittenOne(Quoted(text));
    WrittenOne(Label(text));
    LettersAppend(text, "'");
    LettersAppend("'", text + "'");
    LettersAppend(text, "\"");
    LettersAppend("\"", text + "\"");
  }

  /** Parts that are written as texts are written together as the texts together. */
  lemma WrittenJoin(a: seq<Token>, x: string, b: seq<Token>, y: string)
    requires Written(a) == Letters(x) && Written(b) == Letters(y)
    ensures Written(a + b) == Letters(x + y)
  {
    WrittenAppend(a, b);
    LettersAppend(x, y);
  }

  lemma NothingWritten()
    ensures Written([]) == Letters("")
  {}

  lemma {:induction false} NameWritten(path: seq<string>)
    requires forall w | w in path :: !IsKeyword(w)
    ensures Written(PrintName(path)) == Letters(NameText(path))
  {
    hide Written, Letters, IsKeyword;
    if path == [] {
      NothingWritten();
    } else {
      assert path[0] in path;
      WordWritten(path[0]);
      if |path| > 1 {
        assert forall w | w in path[1..] :: w in path;
        NameWritten(path[1..]);
        SignsWritten();
        WrittenJoin([Dot], ".", PrintName(path[1..]), NameText(path[1..]));
        WrittenJoin([Word(path[0])], path[0], [Dot] + PrintName(path[1..]), "." + NameText(path[1..]));
        assert PrintName(path) == [Word(path[0])] + ([Dot] + PrintName(path[1..]));
      }
    }
  }

  lemma EnclosedWritten(inner: seq<Token>, text: string)
    requires Written(inner) == Letters(text)
    ensures Written([Open] + (inner + [Close])) == Letters("(" + (text + ")"))
  {
    hide Written, Letters;
    SignsWritten();
    WrittenJoin(inner, text, [Close], ")");
    WrittenJoin([Open], "(", inner + [Close], text + ")");
  }

  lemma CastWritten(of: seq<Token>, text: string, kind: string)
    requires Written(of) == Letters(text) && !IsKeyword(kind)
    ensures Written(of + [CastSign, Word(kind)]) == Letters(text + ("::" + kind))
  {
    hide Written, Letters;
    SignsWritten();
    WordWritten(kind);
    WrittenJoin([CastSign], "::", [Word(kind)], kind);
    WrittenJoin(of, text, [CastSign] + [Word(kind)], "::" + kind);
    assert [CastSign] + [Word(kind)] == [CastSign, Word(kind)];
  }

  lemma {:induction false} ExprWritten(e: Expr)
    requires Textual(e)
    ensures Written(PrintExpr(e)) == Letters(ExprText(e))
    ensures Written(PrintCast(e)) == Letters(CastText(e))
    ensures Written(PrintPrimary(e)) == Letters(PrimaryText(e))
    decreases e, 1
  {
    hide Written, Letters, IsKeyword;
    if !e.Field? && !e.Cast? {
      PrintsAlike(e);
      TextsAlike(e);
    }
    match e
    case Name(path) => NameWritten(path);
    case Text(text) => QuotedWritten(text);
    case Apply(name, args) =>
      ListWritten(args);
      WordWritten(name);
      EnclosedWritten(PrintList(args), ListText(args));
      WrittenJoin([Word(name)], name, [Open] + (PrintList(args) + [Close]), "(" + (ListText(args) + ")"));
      assert [Word(name)] + ([Open] + (PrintList(args) + [Close])) == PrintPrimary(e);
    case Field(of, key) =>
      ExprWritten(of);
      ExprWritten(key);
      SignsWritten();
      WrittenJoin([Arrow], "->>", PrintCast(key), CastText(key));
      WrittenJoin(PrintExpr(of), ExprText(of), [Arrow] + PrintCast(key), "->>" + CastText(key));
      EnclosedWritten(PrintExpr(of) + ([Arrow] + PrintCast(key)), ExprText(of) + ("->>" + CastText(key)));
    case Cast(of, kind) =>
      ExprWritten(of);
      CastWritten(PrintCast(of), CastText(of), kind);
      EnclosedWritten(PrintCast(of) + [CastSign, Word(kind)], CastText(of) + ("::" + kind));
  }

  lemma TextsAlike(e: Expr)
    requires !e.Field? && !e.Cast?
    ensures ExprText(e) == PrimaryText(e) && CastText(e) == PrimaryText(e)
  {}

  lemma {:induction false} ListWritten(args: seq<Expr>)
    requires forall a | a in args :: Textual(a)
    ensures Written(PrintList(args)) == Letters(ListText(args))
    decreases args
  {
    if args != [] {
      assert args[0] in args;
      ExprWritten(args[0]);
      if |args| > 1 {
        assert forall a | a in args[1..] :: a in args;
        ListWritten(args[1..]);
        hide Written, Letters;
        SignsWritten();
        WrittenJoin([Comma], ", ", PrintList(args[1..]), ListText(args[1..]));
        WrittenJoin(PrintExpr(args[0]), ExprText(args[0]), [Comma] + PrintList(args[1..]), ", " + ListText(args[1..]));
      }
    }
  }
}

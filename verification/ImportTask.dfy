/** `Layer2ImportTask`: several catalogs imported in sequence. */
module ImportTask {
  import opened Collections
  import opened Schema
  import opened Layers
  import opened Storage
  import opened Layer2
  import opened Import
  import opened Freshness

  const DEFAULT_CATALOGS: seq<Catalog> := [Designation, Icrs, Redshift, Nature]

  function CatalogNamed(name: string): Option<Catalog> {
    if name == "designation" then Some(Designation)
    else if name == "icrs" then Some(Icrs)
    else if name == "redshift" then Some(Redshift)
    else if name == "nature" then Some(Nature)
    else None
  }

  /** The value of a catalog in the enumeration of catalogs. */
  function NameOf(c: Catalog): string {
    match c
    case Designation => "designation"
    case Icrs => "icrs"
    case Redshift => "redshift"
    case Nature => "nature"
  }

  /** A name is known just if it is that of a catalog, and names that one. */
  lemma CatalogNames(name: string, c: Catalog)
    ensures CatalogNamed(name) == Some(c) <==> name == NameOf(c)
  {
    assert |"designation"| == 11 && |"icrs"| == 4 && |"redshift"| == 8 && |"nature"| == 6;
  }

  ghost predicate Unknown(name: string) {
    forall c :: name != NameOf(c)
  }

  ghost predicate Named(names: seq<string>, catalogs: seq<Catalog>) {
    |catalogs| == |names| && forall i | 0 <= i < |names| :: names[i] == NameOf(catalogs[i])
  }

  /** The constructor: unknown names are refused, no names at all mean the default catalogs. */
  method Choose(names: Option<seq<string>>) returns (catalogs: Option<seq<Catalog>>)
    ensures names.None? || names.value == [] ==> catalogs == Some([Designation, Icrs, Redshift, Nature])
    ensures names.Some? && names.value != [] ==>
      && (catalogs.None? <==> exists n :: n in names.value && Unknown(n))
      && (catalogs.Some? ==> Named(names.value, catalogs.value))
  {
    if names.None? || names.value == [] {
      return Some(DEFAULT_CATALOGS);
    }
    var chosen := [];
    for i := 0 to |names.value|
      invariant |chosen| == i && forall k | 0 <= k < i :: names.value[k] == NameOf(chosen[k])
    {
      var c := CatalogNamed(names.value[i]);
      forall d: Catalog ensures c == Some(d) <==> names.value[i] == NameOf(d) {
        CatalogNames(names.value[i], d);
      }
      if c.None? {
        assert Unknown(names.value[i]);
        return None;
      }
      chosen := chosen + [c.value];
    }
    catalogs := Some(chosen);
  }

  /** Imports one after the other, each from the state the one before left. */
  ghost predicate Sequence(states: seq<State>, cfg: Config, catalogs: seq<Catalog>) {
    && |states| == |catalogs| + 1
    && forall i | 0 <= i < |catalogs| :: IsImport(states[i], cfg.(catalog := catalogs[i]), states[i + 1])
  }

  lemma SequenceStart(states: seq<State>, cfg: Config)
    requires |states| == 1
    ensures Sequence(states, cfg, [])
  {}

  lemma SequenceAppend(states: seq<State>, cfg: Config, catalogs: seq<Catalog>, c: Catalog, next: State)
    requires Sequence(states, cfg, catalogs) && |states| == |catalogs| + 1
    requires IsImport(states[|catalogs|], cfg.(catalog := c), next)
    ensures Sequence(states + [next], cfg, catalogs + [c])
  {
    hide IsImport;
    forall i | 0 <= i < |catalogs + [c]|
      ensures IsImport((states + [next])[i], cfg.(catalog := (catalogs + [c])[i]), (states + [next])[i + 1])
    {
      if i < |catalogs| {
        assert IsImport(states[i], cfg.(catalog := catalogs[i]), states[i + 1]);
      }
    }
  }

  method RunOne(db: Database, cfg: Config)
    modifies db`layer2, db`lastUpdate, db`clock
    ensures IsImport(old(db.Snapshot()), cfg, db.Snapshot())
  {
    hide IsImport, ReadSet, Removed, ReadUpTo, PagesOf;
    var saved, orphans, log := Run(db, cfg);
  }

  method RunAll(db: Database, cfg: Config, catalogs: seq<Catalog>) returns (ghost states: seq<State>)
    modifies db`layer2, db`lastUpdate, db`clock
    ensures Sequence(states, cfg, catalogs) && |states| == |catalogs| + 1
    ensures states[0] == old(db.Snapshot()) && states[|catalogs|] == db.Snapshot()
  {
    hide IsImport, Sequence;
    states := [db.Snapshot()];
    SequenceStart(states, cfg);
    for i := 0 to |catalogs|
      invariant Sequence(states, cfg, catalogs[..i]) && |states| == i + 1
      invariant states[0] == old(db.Snapshot()) && states[i] == db.Snapshot()
    {
      RunOne(db, cfg.(catalog := catalogs[i]));
      SequenceAppend(states, cfg, catalogs[..i], catalogs[i], db.Snapshot());
      assert catalogs[..i] + [catalogs[i]] == catalogs[..i + 1];
      states := states + [db.Snapshot()];
    }
    assert catalogs[..|catalogs|] == catalogs;
  }

  /** The start date, if any, is not beyond any watermark. */
  ghost predicate SinceIsPast(st: State, cfg: Config) {
    forall c: Catalog :: SinceOf(st, cfg.(catalog := c)) <= st.lastUpdate.Get(c)
  }

  lemma ImportKeepsPast(s: State, cfg: Config, t: State)
    requires Valid(s) && IsImport(s, cfg, t) && SinceIsPast(s, cfg)
    ensures SinceIsPast(t, cfg)
  {
    forall c: Catalog ensures SinceOf(t, cfg.(catalog := c)) <= t.lastUpdate.Get(c) {
      assert SinceOf(s, cfg.(catalog := c)) <= s.lastUpdate.Get(c);
    }
  }

  lemma {:induction false} SequenceKeepsGood(states: seq<State>, cfg: Config, catalogs: seq<Catalog>, i: nat)
    requires Sequence(states, cfg, catalogs) && i <= |catalogs|
    requires Good(states[0]) && cfg.limit >= 1 && SinceIsPast(states[0], cfg)
    ensures Good(states[i]) && SinceIsPast(states[i], cfg) && states[i].content == states[0].content
  {
    if i > 0 {
      hide Good, IsImport;
      SequenceKeepsGood(states, cfg, catalogs, i - 1);
      GoodStep(states[i - 1], cfg, catalogs[i - 1], states[i]);
    }
  }

  lemma GoodStep(s: State, cfg: Config, c: Catalog, t: State)
    requires Good(s) && cfg.limit >= 1 && SinceIsPast(s, cfg) && IsImport(s, cfg.(catalog := c), t)
    ensures Good(t) && SinceIsPast(t, cfg) && t.content == s.content
  {
    var op := OpImport(cfg.(catalog := c));
    assert SinceOf(s, cfg.(catalog := c)) <= s.lastUpdate.Get(c);
    StepKeepsGood(s, op, t);
    ImportKeepsPast(s, cfg.(catalog := c), t);
    forall d: Catalog ensures SinceOf(t, cfg.(catalog := d)) <= t.lastUpdate.Get(d) {
      assert SinceOf(t, cfg.(catalog := c).(catalog := d)) <= t.lastUpdate.Get(d);
    }
  }

  /** After the whole sequence every chosen catalog is what a computation from scratch gives, the others are untouched. */
  lemma {:induction false} TaskIsExact(states: seq<State>, cfg: Config, catalogs: seq<Catalog>, i: nat, c: Catalog)
    requires Sequence(states, cfg, catalogs) && i <= |catalogs|
    requires Good(states[0]) && cfg.limit >= 1 && SinceIsPast(states[0], cfg)
    requires !cfg.dryRun && cfg.cleanup
    ensures c in catalogs[..i] ==> IsRecompute(states[0].content, c, states[i].layer2.Get(c))
    ensures c !in catalogs[..i] ==>
      states[i].layer2.Get(c) == states[0].layer2.Get(c) && states[i].lastUpdate.Get(c) == states[0].lastUpdate.Get(c)
  {
    hide Good, IsImport, IsRecompute, SinceIsPast;
    if i > 0 {
      TaskIsExact(states, cfg, catalogs, i - 1, c);
      SequenceKeepsGood(states, cfg, catalogs, i - 1);
      var d := catalogs[i - 1];
      assert catalogs[..i] == catalogs[..i - 1] + [d];
      TaskStep(states[i - 1], cfg, d, states[i], c);
    }
  }

  lemma TaskStep(s: State, cfg: Config, d: Catalog, t: State, c: Catalog)
    requires Good(s) && cfg.limit >= 1 && SinceIsPast(s, cfg) && !cfg.dryRun && cfg.cleanup
    requires IsImport(s, cfg.(catalog := d), t)
    ensures c == d ==> IsRecompute(s.content, c, t.layer2.Get(c))
    ensures c != d ==> t.layer2.Get(c) == s.layer2.Get(c) && t.lastUpdate.Get(c) == s.lastUpdate.Get(c)
  {
    var one := cfg.(catalog := d);
    if c == d {
      assert SinceOf(s, cfg.(catalog := d)) <= s.lastUpdate.Get(d);
      forall p ensures Fresh(s, d, p) {}
      FreshUnread(s, one);
      ImportExactIff(s, one, t);
    } else {
      ImportOther(s, one, t, c, Pgc(0));
    }
  }

  /** A dry run of the sequence changes nothing. */
  lemma {:induction false} DryTaskChangesNothing(states: seq<State>, cfg: Config, catalogs: seq<Catalog>, i: nat)
    requires Sequence(states, cfg, catalogs) && cfg.dryRun && i <= |catalogs|
    ensures states[i] == states[0]
  {
    if i > 0 {
      DryTaskChangesNothing(states, cfg, catalogs, i - 1);
    }
  }
}

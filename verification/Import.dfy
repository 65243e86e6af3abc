/** A catalog import as a whole, and why the incremental result is the one from scratch. */
module Import {
  import opened Collections
  import opened Schema
  import opened Layers
  import opened Storage
  import opened Layer2

  datatype Config = Config(catalog: Catalog, limit: nat, dryRun: bool, since: Option<Time>, cleanup: bool)

  function SinceOf(st: State, cfg: Config): Time {
    if cfg.since.Some? then cfg.since.value else st.lastUpdate.Get(cfg.catalog)
  }

  /** The PGCs an import aggregates. */
  function ReadSet(st: State, cfg: Config): set<Pgc> {
    Read(st, cfg.catalog, SinceOf(st, cfg), cfg.limit)
  }

  function Removed(st: State, cfg: Config): set<Pgc> {
    if cfg.cleanup then Orphans(st, cfg.catalog) else {}
  }

  /** The catalog after the import: read PGCs refreshed, orphans gone, the rest as it was. */
  ghost predicate Imported(st: State, cfg: Config, after: map<Pgc, Summary>) {
    var before := st.layer2.Get(cfg.catalog);
    && after.Keys == before.Keys + ReadSet(st, cfg) - Removed(st, cfg)
    && (forall p | p in ReadSet(st, cfg) :: UpToDate(st.content, after, cfg.catalog, p))
    && (forall p | p in after && p !in ReadSet(st, cfg) :: after[p] == before[p])
  }

  /** A whole import; which text a tied vote gives is the only thing it leaves open. */
  ghost predicate IsImport(st: State, cfg: Config, t: State) {
    if cfg.dryRun then t == st
    else
      && Imported(st, cfg, t.layer2.Get(cfg.catalog))
      && t == st.(layer2 := st.layer2.Set(cfg.catalog, t.layer2.Get(cfg.catalog)),
                  lastUpdate := st.lastUpdate.Set(cfg.catalog, st.clock), clock := st.clock + 1)
  }

  /** After an import the catalog has the PGCs it read and those it had before, less the orphans if it cleans up. */
  lemma ImportedKeys(st: State, cfg: Config, t: State, p: Pgc)
    requires IsImport(st, cfg, t) && !cfg.dryRun
    ensures p in t.layer2.Get(cfg.catalog) <==>
      || p in ReadSet(st, cfg)
      || (p in st.layer2.Get(cfg.catalog) && (cfg.cleanup ==> p in Populated(st.content, cfg.catalog)))
  {
    ReadIsPopulated(st, cfg);
  }

  lemma ReadIsPopulated(st: State, cfg: Config)
    ensures ReadSet(st, cfg) <= Populated(st.content, cfg.catalog)
    ensures ReadSet(st, cfg) !! Orphans(st, cfg.catalog)
  {}

  lemma OrphansAfterSaving(st: State, cfg: Config, l2: PerCatalog<map<Pgc, Summary>>)
    requires l2.Get(cfg.catalog).Keys == st.layer2.Get(cfg.catalog).Keys + ReadSet(st, cfg)
    ensures Orphans(st.(layer2 := l2), cfg.catalog) == Orphans(st, cfg.catalog)
  {
    ReadIsPopulated(st, cfg);
  }

  lemma RemovingImports(st: State, cfg: Config, l2: map<Pgc, Summary>)
    requires Refreshed(st.content, cfg.catalog, st.layer2.Get(cfg.catalog), ReadSet(st, cfg), l2)
    ensures Imported(st, cfg, l2 - Removed(st, cfg))
  {
    ReadIsPopulated(st, cfg);
    var after := l2 - Removed(st, cfg);
    forall p | p in ReadSet(st, cfg) ensures UpToDate(st.content, after, cfg.catalog, p) {
      assert UpToDate(st.content, l2, cfg.catalog, p);
    }
  }

  lemma SetSame<T(!new)>(l2: PerCatalog<T>, c: Catalog)
    ensures l2.Set(c, l2.Get(c)) == l2
  {}

  /** `finalize_catalog`: delete the orphans and move the watermark; in a dry run only count. */
  method FinalizeCatalog(db: Database, cfg: Config) returns (orphans: nat)
    modifies db`layer2, db`lastUpdate, db`clock
    ensures orphans == |Removed(old(db.Snapshot()), cfg)|
    ensures cfg.dryRun ==> db.Snapshot() == old(db.Snapshot())
    ensures !cfg.dryRun ==>
              && db.layer2 ==
                 old(db.layer2).Set(cfg.catalog, old(db.layer2).Get(cfg.catalog) - Removed(old(db.Snapshot()), cfg))
              && db.lastUpdate == old(db.lastUpdate).Set(cfg.catalog, old(db.clock))
              && db.clock == old(db.clock) + 1
  {
    var toRemove := {};
    assert db.layer2.Get(cfg.catalog) - {} == db.layer2.Get(cfg.catalog);
    SetSame(db.layer2, cfg.catalog);
    if cfg.cleanup {
      toRemove := GetOrphanedPgcs(db, cfg.catalog);
      if !cfg.dryRun {
        RemovePgcs(db, cfg.catalog, toRemove);
      }
    }
    orphans := |toRemove|;
    if !cfg.dryRun {
      UpdateLastUpdateTime(db, cfg.catalog);
    }
  }

  /** The catalog import task; the counts it reports are the same in a dry run. */
  method Run(db: Database, cfg: Config) returns (saved: nat, orphans: nat, ghost log: seq<Batch>)
    modifies db`layer2, db`lastUpdate, db`clock
    ensures IsImport(old(db.Snapshot()), cfg, db.Snapshot())
    ensures saved == |ReadSet(old(db.Snapshot()), cfg)|
    ensures orphans == |Removed(old(db.Snapshot()), cfg)|
    ensures ReadUpTo(old(db.Snapshot()), cfg.catalog, SinceOf(old(db.Snapshot()), cfg), cfg.limit, log)
    ensures PagesOf(log) == Ascending(ReadSet(old(db.Snapshot()), cfg))
  {
    hide Progress, ReadUpTo, SavedSoFar, Passed, Read, Removed, IsImport;
    ghost var st := db.Snapshot();
    var since := if cfg.since.Some? then cfg.since.value else db.lastUpdate.Get(cfg.catalog);
    saved, log := ImportBatches(db, cfg.catalog, since, cfg.limit, cfg.dryRun);
    ghost var l2 := db.layer2;
    assert db.Snapshot() == st.(layer2 := l2);
    ImportedBatches(st, cfg, log, saved, l2);
    orphans := FinalizeCatalog(db, cfg);
    Finalized(st, cfg, l2, db.Snapshot());
  }

  lemma ImportedBatches(st: State, cfg: Config, log: seq<Batch>, saved: nat, l2: PerCatalog<map<Pgc, Summary>>)
    requires Progress(st, cfg.catalog, SinceOf(st, cfg), cfg.limit, cfg.dryRun, log, saved, l2)
    requires Passed(st, cfg.catalog, SinceOf(st, cfg), CursorAfter(log)) == ReadSet(st, cfg)
    ensures ReadUpTo(st, cfg.catalog, SinceOf(st, cfg), cfg.limit, log)
    ensures PagesOf(log) == Ascending(ReadSet(st, cfg)) && saved == |ReadSet(st, cfg)|
    ensures SavedSoFar(st, cfg.catalog, cfg.dryRun, ReadSet(st, cfg), l2)
    ensures Removed(st.(layer2 := l2), cfg) == Removed(st, cfg)
  {
    if !cfg.dryRun {
      OrphansAfterSaving(st, cfg, l2);
    }
  }

  lemma Finalized(st: State, cfg: Config, l2: PerCatalog<map<Pgc, Summary>>, t: State)
    requires SavedSoFar(st, cfg.catalog, cfg.dryRun, ReadSet(st, cfg), l2)
    requires cfg.dryRun ==> t == st.(layer2 := l2)
    requires !cfg.dryRun ==>
               t == st.(layer2 := l2.Set(cfg.catalog, l2.Get(cfg.catalog) - Removed(st, cfg)),
                        lastUpdate := st.lastUpdate.Set(cfg.catalog, st.clock), clock := st.clock + 1)
    ensures IsImport(st, cfg, t)
  {
    if !cfg.dryRun {
      RemovingImports(st, cfg, l2.Get(cfg.catalog));
      SetTwice(st.layer2, cfg.catalog, l2.Get(cfg.catalog), l2.Get(cfg.catalog) - Removed(st, cfg));
    }
  }

  // ---- Incremental equals full ----

  /** Rows the import does not read are as they should be already. */
  ghost predicate UnreadUpToDate(st: State, cfg: Config) {
    forall p | p in Populated(st.content, cfg.catalog) && p !in ReadSet(st, cfg) ::
      UpToDate(st.content, st.layer2.Get(cfg.catalog), cfg.catalog, p)
  }

  /** An import with cleanup ends in the from-scratch result exactly if what it did not read needed no change. */
  lemma ImportExactIff(st: State, cfg: Config, t: State)
    requires !cfg.dryRun && cfg.cleanup && IsImport(st, cfg, t)
    ensures IsRecompute(t.content, cfg.catalog, t.layer2.Get(cfg.catalog)) <==> UnreadUpToDate(st, cfg)
  {
    var c := cfg.catalog;
    var before, after := st.layer2.Get(c), t.layer2.Get(c);
    ReadIsPopulated(st, cfg);
    assert t.content == st.content;
    if UnreadUpToDate(st, cfg) {
      forall p | p in Populated(st.content, c) ensures p in after && UpToDate(st.content, after, c, p) {
        if p !in ReadSet(st, cfg) {
          assert UpToDate(st.content, before, c, p);
        }
      }
      assert after.Keys == Populated(st.content, c);
    }
    if IsRecompute(st.content, c, after) {
      forall p | p in Populated(st.content, c) && p !in ReadSet(st, cfg) ensures UpToDate(st.content, before, c, p) {
        assert p in after && UpToDate(st.content, after, c, p);
      }
    }
  }

  /** The conditions the import relies on, all of which can be checked before it starts. */
  ghost predicate Sound(st: State, cfg: Config) {
    && cfg.limit >= 1
    && SinceOf(st, cfg) <= st.lastUpdate.Get(cfg.catalog)
    && forall p | p in st.pgcs :: p.number > 0
  }

  lemma FreshUnread(st: State, cfg: Config)
    requires Sound(st, cfg) && forall p :: Fresh(st, cfg.catalog, p)
    ensures UnreadUpToDate(st, cfg)
  {
    forall p | p in Populated(st.content, cfg.catalog) && p !in ReadSet(st, cfg)
      ensures UpToDate(st.content, st.layer2.Get(cfg.catalog), cfg.catalog, p)
    {
      assert Fresh(st, cfg.catalog, p);
    }
  }

  /** Incremental equals full: any from-scratch result, if no vote is tied or the catalog is averaged. */
  lemma IncrementalEqualsFull(st: State, cfg: Config, t: State, full: map<Pgc, Summary>)
    requires Sound(st, cfg) && forall p :: Fresh(st, cfg.catalog, p)
    requires !cfg.dryRun && cfg.cleanup && IsImport(st, cfg, t)
    requires IsRecompute(st.content, cfg.catalog, full)
    ensures IsRecompute(t.content, cfg.catalog, t.layer2.Get(cfg.catalog))
    ensures Measured(cfg.catalog) || NoTies(st.content, cfg.catalog) ==> t.layer2.Get(cfg.catalog) == full
  {
    FreshUnread(st, cfg);
    ImportExactIff(st, cfg, t);
    if Measured(cfg.catalog) || NoTies(st.content, cfg.catalog) {
      RecomputeDetermined(st.content, cfg.catalog, t.layer2.Get(cfg.catalog), full);
    }
  }

  /** A from-scratch result exists: an import into an empty catalog from the beginning of time computes one. */
  lemma FromScratch(st: State, cfg: Config, t: State)
    requires Valid(st) && cfg.limit >= 1 && !cfg.dryRun && cfg.cleanup && IsImport(st, cfg, t)
    requires forall p | p in st.pgcs :: p.number > 0 && SinceOf(st, cfg) < st.pgcs[p]
    ensures IsRecompute(t.content, cfg.catalog, t.layer2.Get(cfg.catalog))
  {
    forall p | p in Populated(st.content, cfg.catalog) ensures p in ReadSet(st, cfg) {
      assert p in st.pgcs;
    }
    ImportExactIff(st, cfg, t);
  }
}

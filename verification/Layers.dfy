/** How the layers hang together: the layer-1 rows of a PGC, and whether its layer-2 row is up to date. */
module Layers {
  import opened Collections
  import opened Schema
  import opened Aggregation

  predicate IsAssigned(db: Content, r: RecordId, p: Pgc) {
    r in db.records && db.records[r].pgc == Some(p)
  }

  predicate IsCompilation(db: Content, r: RecordId) {
    && r in db.records
    && db.records[r].table in db.tables
    && db.tables[db.records[r].table] == Compilation
  }

  /** The layer-1 rows whose record carries `p`. */
  function GroupKeys(db: Content, c: Catalog, p: Pgc): set<Key> {
    set k | k in db.layer1.Get(c) && IsAssigned(db, k.record, p)
  }

  function SampleOf(db: Content, c: Catalog, p: Pgc, k: Key): Sample
    requires k in db.layer1.Get(c)
  {
    Sample(p, Measured(c) && IsCompilation(db, k.record), db.layer1.Get(c)[k])
  }

  function SamplesOf(db: Content, c: Catalog, p: Pgc, keys: seq<Key>): (r: seq<Sample>)
    requires AllStored(db, c, keys)
    ensures |r| == |keys|
    ensures forall x | x in r :: x.pgc == p
  {
    if keys == [] then [] else [SampleOf(db, c, p, keys[0])] + SamplesOf(db, c, p, keys[1..])
  }

  /** The rows of `p`, in some order. */
  ghost function GroupRows(db: Content, c: Catalog, p: Pgc): seq<Sample> {
    SamplesOf(db, c, p, Listing(GroupKeys(db, c, p)))
  }

  /** The PGCs that have a layer-1 row. */
  function Populated(db: Content, c: Catalog): set<Pgc> {
    set k | k in db.layer1.Get(c) && k.record in db.records && db.records[k.record].pgc.Some? ::
      db.records[k.record].pgc.value
  }

  lemma PopulatedGroup(db: Content, c: Catalog, p: Pgc)
    ensures p in Populated(db, c) <==> GroupKeys(db, c, p) != {}
    ensures p in Populated(db, c) <==> GroupRows(db, c, p) != []
  {
    var keys := Listing(GroupKeys(db, c, p));
    if p in Populated(db, c) {
      var k :| k in db.layer1.Get(c) && IsAssigned(db, k.record, p);
      assert k in GroupKeys(db, c, p);
      assert k in keys;
    } else if GroupKeys(db, c, p) != {} {
      var k := Member(GroupKeys(db, c, p));
      assert false;
    }
  }

  ghost predicate AllStored(db: Content, c: Catalog, keys: seq<Key>) {
    forall k | k in keys :: k in db.layer1.Get(c)
  }

  lemma {:induction false} SamplesAppend(db: Content, c: Catalog, p: Pgc, a: seq<Key>, b: seq<Key>)
    requires AllStored(db, c, a) && AllStored(db, c, b)
    ensures AllStored(db, c, a + b)
    ensures SamplesOf(db, c, p, a + b) == SamplesOf(db, c, p, a) + SamplesOf(db, c, p, b)
  {
    hide SampleOf;
    if a == [] {
      assert a + b == b;
    } else {
      assert (a + b)[1..] == a[1..] + b && (a + b)[0] == a[0];
      SamplesAppend(db, c, p, a[1..], b);
    }
  }

  lemma SamplesOfOne(db: Content, c: Catalog, p: Pgc, k: Key)
    requires k in db.layer1.Get(c)
    ensures SamplesOf(db, c, p, [k]) == [SampleOf(db, c, p, k)]
  {}

  lemma SamplesWithout(db: Content, c: Catalog, p: Pgc, keys: seq<Key>, i: nat)
    requires i < |keys| && AllStored(db, c, keys)
    ensures AllStored(db, c, Without(keys, i))
    ensures multiset(SamplesOf(db, c, p, keys)) ==
            multiset{SampleOf(db, c, p, keys[i])} + multiset(SamplesOf(db, c, p, Without(keys, i)))
  {
    hide SampleOf, SamplesOf;
    assert keys == keys[..i] + ([keys[i]] + keys[i + 1..]);
    SamplesAppend(db, c, p, keys[..i], [keys[i]] + keys[i + 1..]);
    SamplesAppend(db, c, p, [keys[i]], keys[i + 1..]);
    SamplesAppend(db, c, p, keys[..i], keys[i + 1..]);
    SamplesOfOne(db, c, p, keys[i]);
  }

  lemma {:induction false} SamplesIgnoreOrder(db: Content, c: Catalog, p: Pgc, a: seq<Key>, b: seq<Key>)
    requires AllStored(db, c, a) && AllStored(db, c, b) && multiset(a) == multiset(b)
    ensures multiset(SamplesOf(db, c, p, a)) == multiset(SamplesOf(db, c, p, b))
  {
    if a == [] {
      assert |b| == |multiset(b)| == 0;
    } else {
      var i := MatchFirst(a, b);
      SamplesWithout(db, c, p, a, 0);
      SamplesWithout(db, c, p, b, i);
      SamplesIgnoreOrder(db, c, p, Without(a, 0), Without(b, i));
    }
  }

  lemma GroupOfOne(db: Content, c: Catalog, p: Pgc, k: Key)
    requires GroupKeys(db, c, p) == {k} && k in db.layer1.Get(c)
    ensures GroupRows(db, c, p) == [SampleOf(db, c, p, k)]
  {
    var keys := Listing({k});
    assert k in keys;
    ListingSize(keys, {k});
    assert keys == [k];
    SamplesOfOne(db, c, p, k);
  }

  // ---- Freshness ----

  /** The layer-2 row of `p` is one that its layer-1 rows give. */
  ghost predicate UpToDate(db: Content, l2: map<Pgc, Summary>, c: Catalog, p: Pgc) {
    p in l2 && IsSummary(c, GroupRows(db, c, p), l2[p])
  }

  lemma HasRow(db: Content, l2: map<Pgc, Summary>, c: Catalog, p: Pgc)
    ensures UpToDate(db, l2, c, p) ==> p in l2
  {}

  /** The PGC was changed since the last import. */
  predicate Marked(st: State, c: Catalog, p: Pgc) {
    p in st.pgcs && st.pgcs[p] > st.lastUpdate.Get(c)
  }

  /** The row is up to date, or the PGC is marked. */
  ghost predicate Fresh(st: State, c: Catalog, p: Pgc) {
    p in Populated(st.content, c) ==> UpToDate(st.content, st.layer2.Get(c), c, p) || Marked(st, c, p)
  }

  ghost predicate FreshCatalog(st: State, c: Catalog) {
    forall p :: Fresh(st, c, p)
  }

  ghost predicate AllFresh(st: State) {
    forall c: Catalog, p: Pgc :: Fresh(st, c, p)
  }

  /** Layer 2 is what aggregating every PGC from scratch gives. */
  ghost predicate IsRecompute(db: Content, c: Catalog, l2: map<Pgc, Summary>) {
    && l2.Keys == Populated(db, c)
    && forall p | p in l2 :: UpToDate(db, l2, c, p)
  }

  ghost predicate NoTies(db: Content, c: Catalog) {
    forall p | p in Populated(db, c) :: !Tied(GroupRows(db, c, p))
  }

  /** From-scratch results agree exactly unless a vote is tied. */
  lemma RecomputeDetermined(db: Content, c: Catalog, a: map<Pgc, Summary>, b: map<Pgc, Summary>)
    requires IsRecompute(db, c, a) && IsRecompute(db, c, b)
    requires Measured(c) || NoTies(db, c)
    ensures a == b
  {
    forall p | p in a ensures a[p] == b[p] {
      SummaryDetermined(c, GroupRows(db, c, p));
      assert UpToDate(db, a, c, p) && UpToDate(db, b, c, p);
    }
  }

  /** A group in two versions of the tables: same rows, read the same way. */
  ghost predicate SameGroup(a: Content, b: Content, c: Catalog, p: Pgc) {
    && GroupKeys(a, c, p) == GroupKeys(b, c, p)
    && forall k | k in GroupKeys(a, c, p) :: SampleOf(a, c, p, k) == SampleOf(b, c, p, k)
  }

  lemma {:induction false} SameSamples(a: Content, b: Content, c: Catalog, p: Pgc, keys: seq<Key>)
    requires SameGroup(a, b, c, p)
    requires forall k | k in keys :: k in GroupKeys(a, c, p)
    ensures SamplesOf(a, c, p, keys) == SamplesOf(b, c, p, keys)
  {
    if keys != [] {
      SameSamples(a, b, c, p, keys[1..]);
    }
  }

  lemma SameGroupRows(a: Content, b: Content, c: Catalog, p: Pgc)
    requires SameGroup(a, b, c, p)
    ensures GroupRows(a, c, p) == GroupRows(b, c, p)
    ensures p in Populated(a, c) <==> p in Populated(b, c)
  {
    SameSamples(a, b, c, p, Listing(GroupKeys(a, c, p)));
    PopulatedGroup(a, c, p);
    PopulatedGroup(b, c, p);
  }

  /**
   * What a writer may do: change only groups it touches, and stamp every PGC it touches with the time its transaction
   * began, which is what the database takes for the current time until it commits.
   */
  ghost predicate WritesFrom(s: State, t: State, touched: set<Pgc>, begin: Time) {
    && t.layer2 == s.layer2 && t.lastUpdate == s.lastUpdate
    && begin <= s.clock <= t.clock
    && (forall p | p in s.pgcs :: p in t.pgcs)
    && (forall p | p in t.pgcs :: t.pgcs[p] == (if p in s.pgcs && p !in touched then s.pgcs[p] else begin))
    && (forall c: Catalog, p | p !in touched :: SameGroup(s.content, t.content, c, p))
  }

  /** The same in a transaction during which no other commits. */
  ghost predicate Writes(s: State, t: State, touched: set<Pgc>) {
    WritesFrom(s, t, touched, s.clock)
  }

  lemma WritesKeepFresh(s: State, t: State, touched: set<Pgc>, c: Catalog, p: Pgc)
    requires Valid(s) && Valid(t) && Writes(s, t, touched) && Fresh(s, c, p)
    ensures Fresh(t, c, p)
  {
    LateMarkIff(s, t, touched, s.clock, c, p);
  }

  /** The mark of a write counts for a catalog iff its transaction began after the catalog's watermark. */
  lemma LateMarkIff(s: State, t: State, touched: set<Pgc>, begin: Time, c: Catalog, p: Pgc)
    requires Valid(s) && Valid(t) && WritesFrom(s, t, touched, begin)
    ensures p in touched && p in Populated(t.content, c) ==> (Marked(t, c, p) <==> begin > s.lastUpdate.Get(c))
    ensures p !in touched && Fresh(s, c, p) ==> Fresh(t, c, p)
  {
    hide WritesFrom, UpToDate, SameGroup, ValidContent;
    StampedWithBegin(s, t, touched, begin, p);
    if p !in touched {
      UntouchedSame(s, t, touched, begin, c, p);
    }
  }

  lemma StampedWithBegin(s: State, t: State, touched: set<Pgc>, begin: Time, p: Pgc)
    requires WritesFrom(s, t, touched, begin)
    ensures t.layer2 == s.layer2 && t.lastUpdate == s.lastUpdate
    ensures p in s.pgcs ==> p in t.pgcs
    ensures p in t.pgcs ==> t.pgcs[p] == if p in s.pgcs && p !in touched then s.pgcs[p] else begin
  {}

  lemma UntouchedSame(s: State, t: State, touched: set<Pgc>, begin: Time, c: Catalog, p: Pgc)
    requires WritesFrom(s, t, touched, begin) && p !in touched
    ensures p in Populated(t.content, c) <==> p in Populated(s.content, c)
    ensures UpToDate(s.content, s.layer2.Get(c), c, p) <==> UpToDate(t.content, s.layer2.Get(c), c, p)
  {
    SameGroupRows(s.content, t.content, c, p);
  }
}

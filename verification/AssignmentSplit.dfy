/** Assigning two requests one after the other is assigning them together, up to the names of the new PGCs. */
module AssignmentSplit {
  import opened Collections
  import opened Schema
  import opened Storage
  import opened Records
  import opened Assignment
  import opened Writers

  type Ids = seq<RecordId>

  predicate InRange(p: Pgc, first: int, n: int) {
    first <= p.number < first + n
  }

  /** Every candidate is a PGC, or will be one once the next `n` ids are minted. */
  ghost predicate Covered(s: State, staged: set<RecordId>, n: int) {
    forall r | r in ExistingRows(s, staged) ::
      ExistingRows(s, staged)[r] in s.pgcs || InRange(ExistingRows(s, staged)[r], s.nextPgc, n)
  }

  ghost predicate FreeIds(s: State, first: int, n: int) {
    forall p | p in s.pgcs :: !(first <= p.number < first + n)
  }

  /** A bad record, a taken id and a candidate that is no PGC are all that can stand in the way. */
  ghost predicate MaySucceed(s: State, staged: set<RecordId>, n: nat) {
    InvalidRows(s, staged) == {} && FreeIds(s, s.nextPgc, n) && Covered(s, staged, n)
  }

  lemma SucceedsIff(s: State, ids: Ids, order: Ids)
    requires ids != [] && NoDuplicates(ids) && Lists(order, NewRows(s, Elements(ids)))
    ensures Assign(s, ids, order).1 == Assigned <==> MaySucceed(s, Elements(ids), |order|)
  {
    hide NewRows, InvalidRows, MintedFor, MintedIds;
    FreeRunFull(s.pgcs, s.nextPgc, |order|);
    if FreeRun(s.pgcs, s.nextPgc, |order|) == |order| {
      KeysHoldIff(s, Elements(ids), order);
      if ExistingRows(s, Elements(ids)) + MintedFor(order, s.nextPgc) == map[] {
        NothingInserted(ExistingRows(s, Elements(ids)), MintedFor(order, s.nextPgc));
      }
    }
  }

  lemma NothingInserted(a: map<RecordId, Pgc>, b: map<RecordId, Pgc>)
    requires a + b == map[]
    ensures a == map[]
  {
    assert forall r | r in a :: r in a + b;
  }

  lemma KeysHoldIff(s: State, staged: set<RecordId>, order: Ids)
    requires Lists(order, NewRows(s, staged)) && FreeRun(s.pgcs, s.nextPgc, |order|) == |order|
    ensures ForeignKeysHold(Mint(s, |order|), ExistingRows(s, staged) + MintedFor(order, s.nextPgc)) <==>
              Covered(s, staged, |order|)
  {
    var existing, minted, m := ExistingRows(s, staged), MintedFor(order, s.nextPgc), Mint(s, |order|);
    forall r | r in order ensures minted[r] in m.pgcs {
      MintedForOne(order, s.nextPgc, r);
    }
    forall r | r in existing
      ensures r in s.content.records && r !in minted
      ensures existing[r] in m.pgcs <==> existing[r] in s.pgcs || InRange(existing[r], s.nextPgc, |order|)
    {
      assert r in order ==> r in NewRows(s, staged);
    }
    if ForeignKeysHold(m, existing + minted) {
      forall r | r in existing ensures existing[r] in m.pgcs {
        assert (existing + minted)[r] == existing[r];
      }
    }
  }

  /** Two requests, one after the other, and one request for the records of both; each with its listing of new records. */
  ghost predicate Cut(s: State, a: Ids, oa: Ids, b: Ids, ob: Ids,
                      u: Ids, ou: Ids) {
    && Valid(s) && a != [] && b != []
    && NoDuplicates(a) && NoDuplicates(b) && NoDuplicates(u) && Elements(u) == Elements(a) + Elements(b)
    && Lists(oa, NewRows(s, Elements(a)))
    && Lists(ob, NewRows(Assign(s, a, oa).0, Elements(b)))
    && Lists(ou, NewRows(s, Elements(u)))
  }

  ghost function AfterFirst(s: State, a: Ids, oa: Ids): State {
    Assign(s, a, oa).0
  }

  lemma CutNonEmpty(a: Ids, b: Ids, u: Ids)
    requires a != [] && Elements(u) == Elements(a) + Elements(b)
    ensures u != []
  {
    assert a[0] in Elements(u);
  }

  /** The second request finds exactly what the first left over. */
  lemma LeftOver(s: State, a: Ids, oa: Ids, b: Ids, u: set<RecordId>)
    requires Valid(s) && a != [] && Lists(oa, NewRows(s, Elements(a))) && Assign(s, a, oa).1 == Assigned
    requires u == Elements(a) + Elements(b)
    ensures var s1 := AfterFirst(s, a, oa);
            && NewRows(s, u) == NewRows(s, Elements(a)) + NewRows(s1, Elements(b))
            && NewRows(s, Elements(a)) !! NewRows(s1, Elements(b))
            && ExistingRows(s, u) == ExistingRows(s, Elements(a)) + ExistingRows(s1, Elements(b))
            && ExistingRows(s, Elements(a)).Keys !! ExistingRows(s1, Elements(b)).Keys
            && InvalidRows(s, u) == InvalidRows(s, Elements(a)) + InvalidRows(s1, Elements(b))
  {
    var s1 := AfterFirst(s, a, oa);
    AssignExactly(s, a, oa);
    forall r | r in s.content.records
      ensures r in Elements(a) ==> s1.content.records[r].pgc.Some?
      ensures r !in Elements(a) || s.content.records[r].pgc.Some? ==> s1.content.records[r] == s.content.records[r]
    {
      AssignedRecords(s, a, oa, r);
    }
    assert s1.content.records.Keys == s.content.records.Keys;
    StillAwaiting(s, s1, Elements(a), Elements(b));
  }

  lemma StillAwaiting(s: State, s1: State, a: set<RecordId>, b: set<RecordId>)
    requires s1.crossmatch == s.crossmatch && s1.content.records.Keys == s.content.records.Keys
    requires forall r | r in s.content.records :: r in a ==> s1.content.records[r].pgc.Some?
    requires forall r | r in s.content.records ::
               r !in a || s.content.records[r].pgc.Some? ==> s1.content.records[r] == s.content.records[r]
    ensures NewRows(s, a + b) == NewRows(s, a) + NewRows(s1, b)
    ensures NewRows(s, a) !! NewRows(s1, b)
    ensures ExistingRows(s, a + b) == ExistingRows(s, a) + ExistingRows(s1, b)
    ensures ExistingRows(s, a).Keys !! ExistingRows(s1, b).Keys
    ensures InvalidRows(s, a + b) == InvalidRows(s, a) + InvalidRows(s1, b)
  {
    assert forall r :: Awaiting(s1, r) <==> Awaiting(s, r) && r !in a;
    assert forall r :: Unassignable(s1, r) <==> Unassignable(s, r);
  }

  lemma OrderSizes(s: State, a: Ids, oa: Ids, b: Ids, ob: Ids, u: Ids, ou: Ids)
    requires Cut(s, a, oa, b, ob, u, ou) && Assign(s, a, oa).1 == Assigned
    ensures |ou| == |oa| + |ob|
  {
    LeftOver(s, a, oa, b, Elements(u));
    ListingSize(oa, NewRows(s, Elements(a)));
    ListingSize(ob, NewRows(AfterFirst(s, a, oa), Elements(b)));
    ListingSize(ou, NewRows(s, Elements(u)));
  }

  lemma SubsetListing<T(!new)>(a: seq<T>, x: set<T>, b: seq<T>, y: set<T>)
    requires Lists(a, x) && Lists(b, y) && x <= y
    ensures |a| <= |b|
  {
    ListingSize(a, x);
    ListingSize(b, y);
    assert y == x + (y - x);
    assert |y| == |x| + |y - x|;
  }

  lemma InvalidOfPart(s: State, a: set<RecordId>, u: set<RecordId>)
    requires a <= u && InvalidRows(s, u) == {}
    ensures InvalidRows(s, a) == {}
  {
    assert InvalidRows(s, a) <= InvalidRows(s, u);
  }

  /** Two requests both succeed iff the joint one does and the first waits for no id that only the second mints. */
  lemma CutSucceeds(s: State, a: Ids, oa: Ids, b: Ids, ob: Ids, u: Ids, ou: Ids)
    requires Cut(s, a, oa, b, ob, u, ou)
    ensures Assign(s, a, oa).1 == Assigned && Assign(AfterFirst(s, a, oa), b, ob).1 == Assigned <==>
              Assign(s, u, ou).1 == Assigned && Covered(s, Elements(a), |oa|)
  {
    hide Assign, Covered, Valid;
    CutNonEmpty(a, b, u);
    SucceedsIff(s, a, oa);
    SucceedsIff(s, u, ou);
    if Assign(s, a, oa).1 == Assigned {
      SecondSucceeds(s, a, oa, b, ob, u, ou);
    } else if Assign(s, u, ou).1 == Assigned {
      assert NewRows(s, Elements(a)) <= NewRows(s, Elements(u));
      SubsetListing(oa, NewRows(s, Elements(a)), ou, NewRows(s, Elements(u)));
      InvalidOfPart(s, Elements(a), Elements(u));
    }
  }

  lemma SecondSucceeds(s: State, a: Ids, oa: Ids, b: Ids, ob: Ids, u: Ids, ou: Ids)
    requires Cut(s, a, oa, b, ob, u, ou) && Assign(s, a, oa).1 == Assigned && MaySucceed(s, Elements(a), |oa|)
    ensures Assign(AfterFirst(s, a, oa), b, ob).1 == Assigned <==> MaySucceed(s, Elements(u), |ou|)
  {
    hide Assign, ExistingRows, NewRows, Valid, Covered;
    var s1 := AfterFirst(s, a, oa);
    LeftOver(s, a, oa, b, Elements(u));
    OrderSizes(s, a, oa, b, ob, u, ou);
    SizeAfter(s, a, oa);
    CoveredAfter(s, Elements(a), |oa|, s1, Elements(b), |ob|, Elements(u));
    SucceedsIff(s1, b, ob);
    FreeIdsSplit(s, s1, s.nextPgc, |oa|, |ob|);
  }

  lemma CoveredAfter(s: State, a: set<RecordId>, n: nat, s1: State, b: set<RecordId>, m: nat, u: set<RecordId>)
    requires Covered(s, a, n) && s1.pgcs.Keys == s.pgcs.Keys + MintedIds(s.nextPgc, n) && s1.nextPgc == s.nextPgc + n
    requires ExistingRows(s, u) == ExistingRows(s, a) + ExistingRows(s1, b)
    requires ExistingRows(s, a).Keys !! ExistingRows(s1, b).Keys
    ensures Covered(s1, b, m) <==> Covered(s, u, n + m)
  {
    hide ExistingRows;
    assert forall p :: p in s1.pgcs <==> p in s.pgcs.Keys || InRange(p, s.nextPgc, n);
    var existing, first, second := ExistingRows(s, u), ExistingRows(s, a), ExistingRows(s1, b);
    if Covered(s, u, n + m) {
      forall r | r in second ensures second[r] in s1.pgcs || InRange(second[r], s1.nextPgc, m) {
        assert existing[r] == second[r];
      }
    }
    if Covered(s1, b, m) {
      forall r | r in existing ensures existing[r] in s.pgcs || InRange(existing[r], s.nextPgc, n + m) {
        assert r in first || r in second;
      }
    }
  }

  lemma FreeIdsSplit(s: State, s1: State, first: int, n: nat, m: nat)
    requires s1.pgcs.Keys == s.pgcs.Keys + MintedIds(first, n) && FreeIds(s, first, n)
    ensures FreeIds(s, first, n + m) <==> FreeIds(s1, first + n, m)
  {
    forall p | p in s.pgcs ensures p in s1.pgcs {}
  }

  // ---- The renaming ----

  function Renamed(f: map<Pgc, Pgc>, rec: Record): Record {
    if rec.pgc.Some? && rec.pgc.value in f then rec.(pgc := Some(f[rec.pgc.value])) else rec
  }

  /** `f` is a bijection between two sets of PGCs that fixes those of `s`. */
  ghost predicate IsRenaming(s: State, f: map<Pgc, Pgc>, from: set<Pgc>, to: set<Pgc>) {
    && f.Keys == from && f.Values == to && Injective(f)
    && forall p | p in s.pgcs :: p in f && f[p] == p
  }

  ghost predicate Injective(f: map<Pgc, Pgc>) {
    forall p, q | p in f && q in f && f[p] == f[q] :: p == q
  }

  ghost predicate RecordsRenamed(f: map<Pgc, Pgc>, t: State, w: State) {
    && t.content.records.Keys == w.content.records.Keys
    && forall r | r in t.content.records :: w.content.records[r] == Renamed(f, t.content.records[r])
  }

  ghost predicate SameOtherTables(t: State, w: State) {
    w == t.(content := t.content.(records := w.content.records), pgcs := w.pgcs, clock := w.clock)
  }

  /** `w` is `t` with PGCs renamed by a bijection that fixes those of `s`. */
  ghost predicate SameUpTo(s: State, f: map<Pgc, Pgc>, t: State, w: State) {
    && IsRenaming(s, f, t.pgcs.Keys, w.pgcs.Keys)
    && RecordsRenamed(f, t, w)
    && SameOtherTables(t, w)
    && SameTouches(s, t, w)
  }

  /** A record that is new in the joint request, and the ids it gets either way. */
  ghost function CutPgc(first: int, oa: Ids, ob: Ids, r: RecordId): Pgc
    requires r in oa || r in ob
  {
    if r in oa then Pgc(first + IndexOf(oa, r)) else Pgc(first + |oa| + IndexOf(ob, r))
  }

  lemma NewInCut(s: State, a: Ids, oa: Ids, b: Ids, ob: Ids, u: Ids, ou: Ids)
    requires Cut(s, a, oa, b, ob, u, ou) && Assign(s, a, oa).1 == Assigned
    ensures forall r :: r in ou <==> r in oa || r in ob
    ensures forall r :: !(r in oa && r in ob)
  {
    LeftOver(s, a, oa, b, Elements(u));
  }

  lemma NewRecordsInCut(s: State, a: Ids, oa: Ids, b: Ids, ob: Ids, r: RecordId)
    requires Valid(s) && a != [] && Lists(oa, NewRows(s, Elements(a))) && Assign(s, a, oa).1 == Assigned
    requires b != [] && Lists(ob, NewRows(AfterFirst(s, a, oa), Elements(b)))
    requires Assign(AfterFirst(s, a, oa), b, ob).1 == Assigned
    requires (r in oa || r in ob) && !(r in oa && r in ob)
    ensures r in s.content.records && r in Assign(AfterFirst(s, a, oa), b, ob).0.content.records
    ensures Assign(AfterFirst(s, a, oa), b, ob).0.content.records[r] ==
              s.content.records[r].(pgc := Some(CutPgc(s.nextPgc, oa, ob, r)))
  {
    hide Assign;
    var s1 := AfterFirst(s, a, oa);
    if r in oa {
      NewGets(s, a, oa, r);
      assert r !in ExistingRows(s1, Elements(b));
      OthersKeep(s1, b, ob, r);
    } else {
      NewGets(s1, b, ob, r);
      assert r in NewRows(s1, Elements(b));
      SizeAfter(s, a, oa);
      BackTo(s, a, oa, r);
    }
  }

  lemma SizeAfter(s: State, a: Ids, oa: Ids)
    requires a != [] && Assign(s, a, oa).1 == Assigned
    ensures AfterFirst(s, a, oa).nextPgc == s.nextPgc + |oa|
    ensures AfterFirst(s, a, oa).content.records.Keys == s.content.records.Keys
    ensures AfterFirst(s, a, oa).pgcs.Keys == s.pgcs.Keys + MintedIds(s.nextPgc, |oa|)
  {
    AssignExactly(s, a, oa);
  }

  /** A record still without a PGC has not been changed. */
  lemma BackTo(s: State, a: Ids, oa: Ids, r: RecordId)
    requires a != [] && Lists(oa, NewRows(s, Elements(a))) && Assign(s, a, oa).1 == Assigned
    requires r in AfterFirst(s, a, oa).content.records && AfterFirst(s, a, oa).content.records[r].pgc.None?
    ensures r in s.content.records && AfterFirst(s, a, oa).content.records[r] == s.content.records[r]
  {
    SizeAfter(s, a, oa);
    if r in oa {
      NewGets(s, a, oa, r);
    } else if r in ExistingRows(s, Elements(a)) {
      MatchedGets(s, a, oa, r);
    } else {
      OthersKeep(s, a, oa, r);
    }
  }

  // ---- Joining the pieces ----

  /** The bijection: earlier PGCs stay, each id minted by the joint request becomes the id its record got in two steps. */
  ghost function Renaming(first: int, oa: Ids, ob: Ids, ou: Ids, keys: set<Pgc>): map<Pgc, Pgc>
    requires Shuffled(oa, ob, ou)
  {
    map p | p in keys ::
      if first <= p.number < first + |ou| then CutPgc(first, oa, ob, ou[p.number - first]) else p
  }

  /** Ids of the two steps are distinct and fill the range of the joint one. */
  lemma CutPgcInjective(first: int, oa: Ids, ob: Ids, q: RecordId, r: RecordId)
    requires (q in oa || q in ob) && (r in oa || r in ob)
    requires CutPgc(first, oa, ob, q) == CutPgc(first, oa, ob, r)
    ensures q == r
  {}

  lemma CutPgcOnto(first: int, oa: Ids, ob: Ids, p: Pgc) returns (r: RecordId)
    requires NoDuplicates(oa) && NoDuplicates(ob) && forall r :: !(r in oa && r in ob)
    requires first <= p.number < first + |oa| + |ob|
    ensures (r in oa || r in ob) && CutPgc(first, oa, ob, r) == p
  {
    var i := p.number - first;
    if i < |oa| {
      r := oa[i];
      IndexOfAt(oa, i);
    } else {
      r := ob[i - |oa|];
      IndexOfAt(ob, i - |oa|);
      assert r in ob;
    }
  }

  /** How the new records of the joint request are those of the two steps. */
  ghost predicate Shuffled(oa: Ids, ob: Ids, ou: Ids) {
    && NoDuplicates(oa) && NoDuplicates(ob) && NoDuplicates(ou) && |ou| == |oa| + |ob|
    && (forall r :: r in ou <==> r in oa || r in ob) && (forall r :: !(r in oa && r in ob))
  }

  lemma RenamingKeepsRange(first: int, oa: Ids, ob: Ids, ou: Ids, keys: set<Pgc>, p: Pgc)
    requires Shuffled(oa, ob, ou) && p in keys
    ensures var f := Renaming(first, oa, ob, ou, keys);
            InRange(p, first, |ou|) <==> InRange(f[p], first, |ou|)
  {
    if InRange(p, first, |ou|) {
      assert ou[p.number - first] in ou;
    }
  }

  lemma RenamingInjective(first: int, oa: Ids, ob: Ids, ou: Ids, keys: set<Pgc>, p: Pgc, q: Pgc)
    requires Shuffled(oa, ob, ou) && p in keys && q in keys
    requires Renaming(first, oa, ob, ou, keys)[p] == Renaming(first, oa, ob, ou, keys)[q]
    ensures p == q
  {
    RenamingKeepsRange(first, oa, ob, ou, keys, p);
    RenamingKeepsRange(first, oa, ob, ou, keys, q);
    if InRange(p, first, |ou|) {
      assert ou[p.number - first] in ou && ou[q.number - first] in ou;
      CutPgcInjective(first, oa, ob, ou[p.number - first], ou[q.number - first]);
    }
  }

  lemma RenamingReaches(first: int, oa: Ids, ob: Ids, ou: Ids, keys: set<Pgc>, p: Pgc) returns (q: Pgc)
    requires Shuffled(oa, ob, ou) && p in keys && MintedIds(first, |ou|) <= keys
    ensures q in Renaming(first, oa, ob, ou, keys) && Renaming(first, oa, ob, ou, keys)[q] == p
  {
    hide CutPgc, NoDuplicates;
    if InRange(p, first, |ou|) {
      var r := CutPgcOnto(first, oa, ob, p);
      assert r in ou;
      q := Pgc(first + IndexOf(ou, r));
      assert q in MintedIds(first, |ou|);
    } else {
      q := p;
    }
  }

  lemma RenamingInto(first: int, oa: Ids, ob: Ids, ou: Ids, keys: set<Pgc>, p: Pgc)
    requires Shuffled(oa, ob, ou) && p in keys && MintedIds(first, |ou|) <= keys
    ensures Renaming(first, oa, ob, ou, keys)[p] in keys
  {
    RenamingKeepsRange(first, oa, ob, ou, keys, p);
    var q := Renaming(first, oa, ob, ou, keys)[p];
    assert InRange(q, first, |ou|) ==> q in MintedIds(first, |ou|);
  }

  lemma RenamingValues(first: int, oa: Ids, ob: Ids, ou: Ids, keys: set<Pgc>)
    requires Shuffled(oa, ob, ou) && MintedIds(first, |ou|) <= keys
    ensures Renaming(first, oa, ob, ou, keys).Values == keys
  {
    hide Shuffled, CutPgc;
    var f := Renaming(first, oa, ob, ou, keys);
    forall v | v in f.Values ensures v in keys {
      var p :| p in f && f[p] == v;
      RenamingInto(first, oa, ob, ou, keys, p);
    }
    forall p | p in keys ensures p in f.Values {
      var q := RenamingReaches(first, oa, ob, ou, keys, p);
    }
  }

  lemma RenamingKeys(first: int, oa: Ids, ob: Ids, ou: Ids, keys: set<Pgc>)
    requires Shuffled(oa, ob, ou)
    ensures Renaming(first, oa, ob, ou, keys).Keys == keys
  {
    hide Shuffled, CutPgc;
  }

  lemma RenamingIsInjective(first: int, oa: Ids, ob: Ids, ou: Ids, keys: set<Pgc>)
    requires Shuffled(oa, ob, ou)
    ensures Injective(Renaming(first, oa, ob, ou, keys))
  {
    hide Shuffled, CutPgc;
    var f := Renaming(first, oa, ob, ou, keys);
    forall p, q | p in f && q in f && f[p] == f[q] ensures p == q {
      RenamingInjective(first, oa, ob, ou, keys, p, q);
    }
  }

  // ---- Both ways compared ----

  lemma CutShuffles(s: State, a: Ids, oa: Ids, b: Ids, ob: Ids, u: Ids, ou: Ids)
    requires Cut(s, a, oa, b, ob, u, ou) && Assign(s, a, oa).1 == Assigned
    ensures Shuffled(oa, ob, ou)
  {
    NewInCut(s, a, oa, b, ob, u, ou);
    OrderSizes(s, a, oa, b, ob, u, ou);
  }

  lemma RenamingFixesOld(s: State, a: Ids, oa: Ids, ob: Ids, u: Ids, ou: Ids)
    requires Shuffled(oa, ob, ou) && u != [] && Assign(s, u, ou).1 == Assigned
    ensures var f := Renaming(s.nextPgc, oa, ob, ou, Assign(s, u, ou).0.pgcs.Keys);
            forall p | p in s.pgcs :: p in f && f[p] == p
  {
    hide Shuffled, CutPgc, Assign;
    AssignExactly(s, u, ou);
    FreeRunFull(s.pgcs, s.nextPgc, |ou|);
    SizeAfter(s, u, ou);
  }

  /** The two requests and the joint one all succeed. */
  ghost predicate AllAssigned(s: State, a: Ids, oa: Ids, b: Ids, ob: Ids, u: Ids, ou: Ids) {
    && Assign(s, a, oa).1 == Assigned
    && Assign(AfterFirst(s, a, oa), b, ob).1 == Assigned
    && Assign(s, u, ou).1 == Assigned
  }

  /** A candidate that the joint request itself mints goes to the same record in two steps. */
  ghost predicate Foreseen(s: State, oa: Ids, ob: Ids, ou: Ids, p: Pgc) {
    InRange(p, s.nextPgc, |ou|) ==>
      var q := ou[p.number - s.nextPgc];
      (q in oa || q in ob) && CutPgc(s.nextPgc, oa, ob, q) == p
  }

  ghost predicate AllForeseen(s: State, oa: Ids, ob: Ids, u: Ids, ou: Ids) {
    forall r | r in ExistingRows(s, Elements(u)) :: Foreseen(s, oa, ob, ou, ExistingRows(s, Elements(u))[r])
  }

  /** The record of `r` after the joint request, renamed, is its record after the two steps. */
  lemma RecordsAgree(s: State, a: Ids, oa: Ids, b: Ids, ob: Ids, u: Ids, ou: Ids, r: RecordId)
    requires Cut(s, a, oa, b, ob, u, ou) && Shuffled(oa, ob, ou) && r in s.content.records
    requires AllAssigned(s, a, oa, b, ob, u, ou) && AllForeseen(s, oa, ob, u, ou)
    ensures var t, w := Assign(s, u, ou).0, Assign(AfterFirst(s, a, oa), b, ob).0;
            && r in t.content.records && r in w.content.records
            && w.content.records[r] == Renamed(Renaming(s.nextPgc, oa, ob, ou, t.pgcs.Keys), t.content.records[r])
  {
    hide Assign, Renaming;
    CutNonEmpty(a, b, u);
    if r in ou {
      NewRecordsAgree(s, a, oa, b, ob, u, ou, r);
    } else {
      OldRecordsAgree(s, a, oa, b, ob, u, ou, r);
      RenamingFixesOld(s, a, oa, ob, u, ou);
      OldPgcFixed(s, oa, ob, u, ou, r, Assign(s, u, ou).0.pgcs.Keys);
    }
  }

  lemma NewRecordsAgree(s: State, a: Ids, oa: Ids, b: Ids, ob: Ids, u: Ids, ou: Ids, r: RecordId)
    requires Cut(s, a, oa, b, ob, u, ou) && Shuffled(oa, ob, ou) && u != [] && r in ou
    requires AllAssigned(s, a, oa, b, ob, u, ou)
    ensures var t, w := Assign(s, u, ou).0, Assign(AfterFirst(s, a, oa), b, ob).0;
            && r in t.content.records && r in w.content.records
            && w.content.records[r] == Renamed(Renaming(s.nextPgc, oa, ob, ou, t.pgcs.Keys), t.content.records[r])
  {
    hide Assign, Valid, NewRows, Renaming, CutPgc, MintedIds;
    NewGets(s, u, ou, r);
    NewRecordsInCut(s, a, oa, b, ob, r);
    SizeAfter(s, u, ou);
    RenamingAt(s.nextPgc, oa, ob, ou, Assign(s, u, ou).0.pgcs.Keys, r);
  }

  lemma RenamingAt(first: int, oa: Ids, ob: Ids, ou: Ids, keys: set<Pgc>, r: RecordId)
    requires Shuffled(oa, ob, ou) && r in ou && MintedIds(first, |ou|) <= keys
    ensures var p := Pgc(first + IndexOf(ou, r));
            p in Renaming(first, oa, ob, ou, keys) && Renaming(first, oa, ob, ou, keys)[p] == CutPgc(first, oa, ob, r)
  {
    IndexOfAt(ou, IndexOf(ou, r));
    assert Pgc(first + IndexOf(ou, r)) in MintedIds(first, |ou|);
  }

  lemma OldRecordsAgree(s: State, a: Ids, oa: Ids, b: Ids, ob: Ids, u: Ids, ou: Ids, r: RecordId)
    requires Cut(s, a, oa, b, ob, u, ou) && u != [] && r in s.content.records && r !in oa && r !in ob && r !in ou
    requires AllAssigned(s, a, oa, b, ob, u, ou)
    ensures var t, w := Assign(s, u, ou).0, Assign(AfterFirst(s, a, oa), b, ob).0;
            r in t.content.records && r in w.content.records && w.content.records[r] == t.content.records[r]
  {
    hide Assign;
    var s1 := AfterFirst(s, a, oa);
    LeftOver(s, a, oa, b, Elements(u));
    SizeAfter(s, a, oa);
    if r in ExistingRows(s, Elements(a)) {
      MatchedGets(s, u, ou, r);
      MatchedGets(s, a, oa, r);
      assert s1.content.records[r].pgc.Some?;
      OthersKeep(s1, b, ob, r);
    } else if r in ExistingRows(s1, Elements(b)) {
      MatchedGets(s, u, ou, r);
      OthersKeep(s, a, oa, r);
      MatchedGets(s1, b, ob, r);
    } else {
      OthersKeep(s, u, ou, r);
      OthersKeep(s, a, oa, r);
      OthersKeep(s1, b, ob, r);
    }
  }

  /** The renaming leaves a PGC that was there before, and a candidate whose record gets the same id both ways. */
  lemma OldPgcFixed(s: State, oa: Ids, ob: Ids, u: Ids, ou: Ids, r: RecordId, keys: set<Pgc>)
    requires Valid(s) && u != [] && Lists(ou, NewRows(s, Elements(u))) && Shuffled(oa, ob, ou)
    requires Assign(s, u, ou).1 == Assigned && r in s.content.records && r !in ou
    requires AllForeseen(s, oa, ob, u, ou)
    requires var f := Renaming(s.nextPgc, oa, ob, ou, keys); forall p | p in s.pgcs :: p in f && f[p] == p
    ensures var t := Assign(s, u, ou).0;
            && r in t.content.records
            && Renamed(Renaming(s.nextPgc, oa, ob, ou, keys), t.content.records[r]) == t.content.records[r]
  {
    hide Assign, CutPgc, Shuffled;
    if r in ExistingRows(s, Elements(u)) {
      MatchedGets(s, u, ou, r);
      assert Foreseen(s, oa, ob, ou, ExistingRows(s, Elements(u))[r]);
    } else {
      OthersKeep(s, u, ou, r);
    }
  }

  lemma SameKeys(s: State, a: Ids, oa: Ids, b: Ids, ob: Ids, u: Ids, ou: Ids)
    requires a != [] && b != [] && u != [] && |ou| == |oa| + |ob|
    requires AllAssigned(s, a, oa, b, ob, u, ou)
    ensures var t, w := Assign(s, u, ou).0, Assign(AfterFirst(s, a, oa), b, ob).0;
            && t.pgcs.Keys == w.pgcs.Keys && t.content.records.Keys == w.content.records.Keys
            && MintedIds(s.nextPgc, |ou|) <= t.pgcs.Keys
  {
    hide Assign, MintedIds;
    SizeAfter(s, a, oa);
    SizeAfter(AfterFirst(s, a, oa), b, ob);
    SizeAfter(s, u, ou);
    MintedInTwo(s.nextPgc, |oa|, |ob|);
  }

  lemma MintedInTwo(first: int, n: nat, m: nat)
    ensures MintedIds(first, n + m) == MintedIds(first, n) + MintedIds(first + n, m)
  {
  }

  lemma OtherTablesAgree(s: State, a: Ids, oa: Ids, b: Ids, ob: Ids, u: Ids, ou: Ids)
    requires a != [] && b != [] && u != [] && |ou| == |oa| + |ob|
    requires AllAssigned(s, a, oa, b, ob, u, ou)
    ensures var t, w := Assign(s, u, ou).0, Assign(AfterFirst(s, a, oa), b, ob).0;
            SameOtherTables(t, w)
  {
    hide Assign;
    AssignExactly(s, a, oa);
    AssignExactly(AfterFirst(s, a, oa), b, ob);
    AssignExactly(s, u, ou);
  }

  /** Whether a request touches a PGC that was there before it. */
  lemma TouchesOld(s: State, ids: Ids, order: Ids, p: Pgc)
    requires Valid(s) && ids != [] && Assign(s, ids, order).1 == Assigned && p in s.pgcs
    requires Lists(order, NewRows(s, Elements(ids)))
    ensures var t := Assign(s, ids, order).0;
            && p in t.pgcs
            && (t.pgcs[p] == s.pgcs[p] <==> p !in ExistingRows(s, Elements(ids)).Values)
            && (t.pgcs[p] == s.pgcs[p] || t.pgcs[p] == s.clock)
  {
    hide Assign;
    AssignExactly(s, ids, order);
    FreeRunFull(s.pgcs, s.nextPgc, |order|);
    var existing, minted := ExistingRows(s, Elements(ids)), MintedFor(order, s.nextPgc);
    forall r | r in order ensures minted[r] != p {
      MintedForOne(order, s.nextPgc, r);
    }
    if p in (existing + minted).Values {
      var r :| r in existing + minted && (existing + minted)[r] == p;
      assert r in existing && existing[r] == p;
    }
    if p in existing.Values {
      var r :| r in existing && existing[r] == p;
      assert r in order ==> r in NewRows(s, Elements(ids));
      assert (existing + minted)[r] == p;
    }
  }

  lemma UnionValues<K, V>(x: map<K, V>, y: map<K, V>, v: V)
    requires x.Keys !! y.Keys
    ensures v in (x + y).Values <==> v in x.Values || v in y.Values
  {
    if v in x.Values {
      var k :| k in x && x[k] == v;
      assert (x + y)[k] == v;
    }
    if v in y.Values {
      var k :| k in y && y[k] == v;
      assert (x + y)[k] == v;
    }
  }

  lemma TouchesAgree(s: State, a: Ids, oa: Ids, b: Ids, ob: Ids, u: Ids, ou: Ids, p: Pgc)
    requires Cut(s, a, oa, b, ob, u, ou) && u != [] && p in s.pgcs
    requires AllAssigned(s, a, oa, b, ob, u, ou)
    ensures var t, w := Assign(s, u, ou).0, Assign(AfterFirst(s, a, oa), b, ob).0;
            p in t.pgcs && p in w.pgcs && (t.pgcs[p] == s.pgcs[p] <==> w.pgcs[p] == s.pgcs[p])
  {
    hide Assign;
    var s1 := AfterFirst(s, a, oa);
    AssignKeeps(s, a, oa);
    LeftOver(s, a, oa, b, Elements(u));
    UnionValues(ExistingRows(s, Elements(a)), ExistingRows(s1, Elements(b)), p);
    TouchesOld(s, u, ou, p);
    TouchesOld(s, a, oa, p);
    TouchesOld(s1, b, ob, p);
  }

  /** Both ways succeed on requests that split `u`. */
  ghost predicate Compared(s: State, a: Ids, oa: Ids, b: Ids, ob: Ids, u: Ids, ou: Ids) {
    && Cut(s, a, oa, b, ob, u, ou)
    && a != [] && b != [] && u != []
    && AllAssigned(s, a, oa, b, ob, u, ou)
  }

  lemma RenamingFits(s: State, a: Ids, oa: Ids, b: Ids, ob: Ids, u: Ids, ou: Ids)
    requires Compared(s, a, oa, b, ob, u, ou) && Shuffled(oa, ob, ou)
    ensures var t, w := Assign(s, u, ou).0, Assign(AfterFirst(s, a, oa), b, ob).0;
            IsRenaming(s, Renaming(s.nextPgc, oa, ob, ou, t.pgcs.Keys), t.pgcs.Keys, w.pgcs.Keys)
  {
    hide Assign, CutPgc, Cut, Valid, Injective, Shuffled, Renaming, MintedIds;
    ShuffledSize(oa, ob, ou);
    SameKeys(s, a, oa, b, ob, u, ou);
    var keys := Assign(s, u, ou).0.pgcs.Keys;
    RenamingKeys(s.nextPgc, oa, ob, ou, keys);
    RenamingValues(s.nextPgc, oa, ob, ou, keys);
    RenamingIsInjective(s.nextPgc, oa, ob, ou, keys);
    RenamingFixesOld(s, a, oa, ob, u, ou);
  }

  lemma ShuffledSize(oa: Ids, ob: Ids, ou: Ids)
    requires Shuffled(oa, ob, ou)
    ensures |ou| == |oa| + |ob|
  {}

  lemma RecordsFit(s: State, a: Ids, oa: Ids, b: Ids, ob: Ids, u: Ids, ou: Ids)
    requires Compared(s, a, oa, b, ob, u, ou) && Shuffled(oa, ob, ou) && AllForeseen(s, oa, ob, u, ou)
    ensures var t, w := Assign(s, u, ou).0, Assign(AfterFirst(s, a, oa), b, ob).0;
            RecordsRenamed(Renaming(s.nextPgc, oa, ob, ou, t.pgcs.Keys), t, w)
  {
    hide Assign, CutPgc, Cut, Shuffled, Renamed, Renaming;
    ShuffledSize(oa, ob, ou);
    SameKeys(s, a, oa, b, ob, u, ou);
    SizeAfter(s, u, ou);
    var t := Assign(s, u, ou).0;
    forall r | r in t.content.records
      ensures Assign(AfterFirst(s, a, oa), b, ob).0.content.records[r] ==
              Renamed(Renaming(s.nextPgc, oa, ob, ou, t.pgcs.Keys), t.content.records[r])
    {
      RecordsAgree(s, a, oa, b, ob, u, ou, r);
    }
  }

  lemma TouchesFit(s: State, a: Ids, oa: Ids, b: Ids, ob: Ids, u: Ids, ou: Ids)
    requires Compared(s, a, oa, b, ob, u, ou)
    ensures SameTouches(s, Assign(s, u, ou).0, Assign(AfterFirst(s, a, oa), b, ob).0)
  {
    hide Assign, Cut;
    var t, w := Assign(s, u, ou).0, Assign(AfterFirst(s, a, oa), b, ob).0;
    forall p | p in s.pgcs ensures p in t.pgcs && p in w.pgcs && (t.pgcs[p] == s.pgcs[p] <==> w.pgcs[p] == s.pgcs[p]) {
      TouchesAgree(s, a, oa, b, ob, u, ou, p);
    }
  }

  lemma CutNonEmptyOf(s: State, a: Ids, oa: Ids, b: Ids, ob: Ids, u: Ids, ou: Ids)
    requires Cut(s, a, oa, b, ob, u, ou)
    ensures a != [] && b != [] && u != []
  {
    CutNonEmpty(a, b, u);
  }

  lemma ForeseenCompose(s: State, a: Ids, oa: Ids, b: Ids, ob: Ids, u: Ids, ou: Ids)
    returns (f: map<Pgc, Pgc>)
    requires Cut(s, a, oa, b, ob, u, ou) && AllAssigned(s, a, oa, b, ob, u, ou) && AllForeseen(s, oa, ob, u, ou)
    ensures SameUpTo(s, f, Assign(s, u, ou).0, Assign(AfterFirst(s, a, oa), b, ob).0)
  {
    hide Assign, Cut, Shuffled, Renaming, IsRenaming, RecordsRenamed, SameOtherTables, SameTouches, AllForeseen;
    CutNonEmptyOf(s, a, oa, b, ob, u, ou);
    CutShuffles(s, a, oa, b, ob, u, ou);
    ShuffledSize(oa, ob, ou);
    f := Renaming(s.nextPgc, oa, ob, ou, Assign(s, u, ou).0.pgcs.Keys);
    RenamingFits(s, a, oa, b, ob, u, ou);
    RecordsFit(s, a, oa, b, ob, u, ou);
    OtherTablesAgree(s, a, oa, b, ob, u, ou);
    TouchesFit(s, a, oa, b, ob, u, ou);
  }

  /** A matched record has its candidate both ways, so a renaming must leave the candidate where it is. */
  lemma CandidateStays(s: State, a: Ids, oa: Ids, b: Ids, ob: Ids, u: Ids, ou: Ids, f: map<Pgc, Pgc>, r: RecordId)
    requires Cut(s, a, oa, b, ob, u, ou) && AllAssigned(s, a, oa, b, ob, u, ou) && u != [] && Shuffled(oa, ob, ou)
    requires r in ExistingRows(s, Elements(u))
    requires RecordsRenamed(f, Assign(s, u, ou).0, Assign(AfterFirst(s, a, oa), b, ob).0)
    requires f.Keys == Assign(s, u, ou).0.pgcs.Keys
    ensures var p := ExistingRows(s, Elements(u))[r]; p in f ==> f[p] == p
  {
    hide Assign, Valid;
    assert r in ou ==> r in NewRows(s, Elements(u));
    MatchedGets(s, u, ou, r);
    OldRecordsAgree(s, a, oa, b, ob, u, ou, r);
  }

  /** A new record's id goes to the id it gets in two steps. */
  lemma NewIdMoves(s: State, a: Ids, oa: Ids, b: Ids, ob: Ids, u: Ids, ou: Ids, f: map<Pgc, Pgc>, i: nat)
    requires Cut(s, a, oa, b, ob, u, ou) && AllAssigned(s, a, oa, b, ob, u, ou) && u != [] && Shuffled(oa, ob, ou)
    requires i < |ou| && Pgc(s.nextPgc + i) in f
    requires RecordsRenamed(f, Assign(s, u, ou).0, Assign(AfterFirst(s, a, oa), b, ob).0)
    ensures (ou[i] in oa || ou[i] in ob) && f[Pgc(s.nextPgc + i)] == CutPgc(s.nextPgc, oa, ob, ou[i])
  {
    hide Assign, Valid, NewRows, CutPgc;
    var r := ou[i];
    assert r in ou;
    IndexOfAt(ou, i);
    NewGets(s, u, ou, r);
    NewRecordsInCut(s, a, oa, b, ob, r);
  }

  lemma CandidateForeseen(s: State, a: Ids, oa: Ids, b: Ids, ob: Ids, u: Ids, ou: Ids, f: map<Pgc, Pgc>, r: RecordId)
    requires Cut(s, a, oa, b, ob, u, ou) && AllAssigned(s, a, oa, b, ob, u, ou) && u != [] && Shuffled(oa, ob, ou)
    requires r in ExistingRows(s, Elements(u))
    requires RecordsRenamed(f, Assign(s, u, ou).0, Assign(AfterFirst(s, a, oa), b, ob).0)
    requires f.Keys == Assign(s, u, ou).0.pgcs.Keys
    ensures Foreseen(s, oa, ob, ou, ExistingRows(s, Elements(u))[r])
  {
    hide Assign, Cut, Shuffled, RecordsRenamed, CutPgc, ExistingRows, AllAssigned;
    var p := ExistingRows(s, Elements(u))[r];
    if InRange(p, s.nextPgc, |ou|) {
      JointSize(s, a, oa, b, ob, u, ou);
      assert p in MintedIds(s.nextPgc, |ou|);
      CandidateStays(s, a, oa, b, ob, u, ou, f, r);
      NewIdMoves(s, a, oa, b, ob, u, ou, f, p.number - s.nextPgc);
    }
  }

  lemma JointSize(s: State, a: Ids, oa: Ids, b: Ids, ob: Ids, u: Ids, ou: Ids)
    requires AllAssigned(s, a, oa, b, ob, u, ou) && u != []
    ensures MintedIds(s.nextPgc, |ou|) <= Assign(s, u, ou).0.pgcs.Keys
  {
    hide Assign;
    SizeAfter(s, u, ou);
  }

  lemma SameUpToForeseen(s: State, a: Ids, oa: Ids, b: Ids, ob: Ids, u: Ids, ou: Ids, f: map<Pgc, Pgc>)
    requires Cut(s, a, oa, b, ob, u, ou) && AllAssigned(s, a, oa, b, ob, u, ou)
    requires SameUpTo(s, f, Assign(s, u, ou).0, Assign(AfterFirst(s, a, oa), b, ob).0)
    ensures AllForeseen(s, oa, ob, u, ou)
  {
    hide Assign, Cut, Shuffled, RecordsRenamed, SameOtherTables, SameTouches, Foreseen, ExistingRows, Injective;
    CutNonEmptyOf(s, a, oa, b, ob, u, ou);
    CutShuffles(s, a, oa, b, ob, u, ou);
    forall r | r in ExistingRows(s, Elements(u)) ensures Foreseen(s, oa, ob, ou, ExistingRows(s, Elements(u))[r]) {
      CandidateForeseen(s, a, oa, b, ob, u, ou, f, r);
    }
  }

  ghost predicate SameUpToSome(s: State, t: State, w: State) {
    exists f :: SameUpTo(s, f, t, w)
  }

  /** A then B is A and B together, up to a bijection on the minted PGCs, iff all candidates among those are foreseen. */
  lemma AssignmentsComposeIff(s: State, a: Ids, oa: Ids, b: Ids, ob: Ids, u: Ids, ou: Ids)
    requires Cut(s, a, oa, b, ob, u, ou) && AllAssigned(s, a, oa, b, ob, u, ou)
    ensures SameUpToSome(s, Assign(s, u, ou).0, Assign(AfterFirst(s, a, oa), b, ob).0) <==> AllForeseen(s, oa, ob, u, ou)
  {
    hide Assign, Cut, AllForeseen, SameUpTo;
    var t, w := Assign(s, u, ou).0, Assign(AfterFirst(s, a, oa), b, ob).0;
    if AllForeseen(s, oa, ob, u, ou) {
      var f := ForeseenCompose(s, a, oa, b, ob, u, ou);
    }
    if SameUpToSome(s, t, w) {
      var f :| SameUpTo(s, f, t, w);
      SameUpToForeseen(s, a, oa, b, ob, u, ou, f);
    }
  }

  /** No candidate is one of the next `n` ids. */
  ghost predicate NoneAhead(s: State, staged: set<RecordId>, n: nat) {
    forall r | r in ExistingRows(s, staged) :: !InRange(ExistingRows(s, staged)[r], s.nextPgc, n)
  }

  lemma NoneAheadCovers(s: State, a: set<RecordId>, n: nat, u: set<RecordId>, m: nat)
    requires a <= u && NoneAhead(s, u, m) && Covered(s, u, m)
    ensures Covered(s, a, n)
  {
    forall r | r in ExistingRows(s, a) ensures ExistingRows(s, a)[r] in s.pgcs {
      assert r in ExistingRows(s, u);
    }
  }

  /** With no candidate ahead of the id sequence two requests succeed iff the joint one does, and come to the same. */
  lemma AssignmentsCompose(s: State, a: Ids, oa: Ids, b: Ids, ob: Ids, u: Ids, ou: Ids)
    requires Cut(s, a, oa, b, ob, u, ou) && NoneAhead(s, Elements(u), |ou|)
    ensures Assign(s, u, ou).1 == Assigned <==>
              Assign(s, a, oa).1 == Assigned && Assign(AfterFirst(s, a, oa), b, ob).1 == Assigned
    ensures Assign(s, u, ou).1 == Assigned ==>
              SameUpToSome(s, Assign(s, u, ou).0, Assign(AfterFirst(s, a, oa), b, ob).0)
  {
    hide Assign, Valid, Covered, InvalidRows, SameUpTo;
    CutNonEmptyOf(s, a, oa, b, ob, u, ou);
    CutSucceeds(s, a, oa, b, ob, u, ou);
    SucceedsIff(s, u, ou);
    if Assign(s, u, ou).1 == Assigned {
      NoneAheadCovers(s, Elements(a), |oa|, Elements(u), |ou|);
      var f := ForeseenCompose(s, a, oa, b, ob, u, ou);
    }
  }
}

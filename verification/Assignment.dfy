/** What an assignment of PGCs guarantees: all or nothing, exact, repeatable, and independent of how it is cut up. */
module Assignment {
  import opened Collections
  import opened Schema
  import opened Storage
  import opened Records

  // ---- Minted ids ----

  lemma FreeRunFull(pgcs: map<Pgc, Time>, first: int, n: nat)
    ensures FreeRun(pgcs, first, n) == n <==> forall p | p in pgcs :: !(first <= p.number < first + n)
  {
    var run := FreeRun(pgcs, first, n);
    if run < n {
      assert Pgc(first + run) in pgcs;
    }
  }

  lemma {:induction false} IndexOfAt<T>(s: seq<T>, i: nat)
    requires NoDuplicates(s) && i < |s|
    ensures s[i] in s && IndexOf(s, s[i]) == i
  {
    if i > 0 {
      assert s[0] != s[i];
      IndexOfAt(s[1..], i - 1);
    }
  }

  lemma MintedForOne(order: seq<RecordId>, first: int, r: RecordId)
    requires r in order
    ensures MintedFor(order, first)[r] == Pgc(first + IndexOf(order, r))
    ensures MintedFor(order, first)[r] in MintedIds(first, |order|)
  {}

  lemma MintedForDistinct(order: seq<RecordId>, first: int, a: RecordId, b: RecordId)
    requires a in order && b in order && a != b
    ensures MintedFor(order, first)[a] != MintedFor(order, first)[b]
  {}

  // ---- All or nothing, and exact ----

  /** Nothing but the id sequence, which never rolls back, has changed. */
  ghost predicate Unchanged(s: State, t: State) {
    t == s.(nextPgc := t.nextPgc)
  }

  lemma AssignAllOrNothing(s: State, ids: seq<RecordId>, order: seq<RecordId>)
    ensures var (t, outcome) := Assign(s, ids, order);
            && (outcome != Assigned ==> Unchanged(s, t))
            && (outcome.Unresolved? <==> NoDuplicates(ids) && exists r :: r in ids && Unassignable(s, r))
            && (outcome.Unresolved? ==> t == s && outcome.count == |set r | r in ids && Unassignable(s, r)|)
  {
    var invalid := InvalidRows(s, Elements(ids));
    assert invalid == set r | r in ids && Unassignable(s, r);
    if exists r :: r in ids && Unassignable(s, r) {
      var r :| r in ids && Unassignable(s, r);
      assert r in invalid;
    } else {
      assert invalid == {};
    }
  }

  /** The one candidate of a record that is matched to an existing object. */
  ghost predicate MatchedTo(s: State, r: RecordId, p: Pgc) {
    r in s.crossmatch && MetadataToCandidates(s.crossmatch[r].metadata) == [p.number]
  }

  ghost predicate MatchedToNone(s: State, r: RecordId) {
    r in s.crossmatch && MetadataToCandidates(s.crossmatch[r].metadata) == []
  }

  /** The staged records that had no PGC split into those with one candidate and those with none. */
  lemma StagedRows(s: State, ids: seq<RecordId>, r: RecordId)
    requires Valid(s) && r in ids && InvalidRows(s, Elements(ids)) == {}
    ensures r in s.crossmatch && r in s.content.records
    ensures r in ExistingRows(s, Elements(ids)) <==>
              s.content.records[r].pgc.None? &&
              CandidatesToStatus(MetadataToCandidates(s.crossmatch[r].metadata)) == Existing
    ensures r in ExistingRows(s, Elements(ids)) ==> MatchedTo(s, r, ExistingRows(s, Elements(ids))[r])
    ensures r in NewRows(s, Elements(ids)) <==> s.content.records[r].pgc.None? && MatchedToNone(s, r)
    ensures s.content.records[r].pgc.Some? || r in ExistingRows(s, Elements(ids)) || r in NewRows(s, Elements(ids))
  {
    assert r in Elements(ids) && r !in InvalidRows(s, Elements(ids));
    MetadataFormIsStatus(s.crossmatch[r]);
  }

  /** The PGC a successful assignment leaves a record with. */
  ghost function FinalPgc(s: State, ids: seq<RecordId>, order: seq<RecordId>, r: RecordId): Option<Pgc>
    requires r in s.content.records
  {
    var inserts := ExistingRows(s, Elements(ids)) + MintedFor(order, s.nextPgc);
    if r in inserts then Some(inserts[r]) else s.content.records[r].pgc
  }

  /** A successful assignment in full, without its SQL. */
  ghost predicate AssignedExactly(s: State, ids: seq<RecordId>, order: seq<RecordId>, t: State) {
    && t.content == s.content.(records := t.content.records)
    && t.content.records.Keys == s.content.records.Keys
    && (forall r | r in s.content.records ::
          t.content.records[r] == s.content.records[r].(pgc := FinalPgc(s, ids, order, r)))
    && t.crossmatch == s.crossmatch && t.layer2 == s.layer2 && t.lastUpdate == s.lastUpdate
    && t.pgcs.Keys == s.pgcs.Keys + MintedIds(s.nextPgc, |order|)
    && t.nextPgc == s.nextPgc + |order|
    && (forall p | p in s.pgcs && p !in (ExistingRows(s, Elements(ids)) + MintedFor(order, s.nextPgc)).Values ::
          t.pgcs[p] == s.pgcs[p])
    && (forall p | p in t.pgcs && p in (ExistingRows(s, Elements(ids)) + MintedFor(order, s.nextPgc)).Values ::
          t.pgcs[p] == s.clock)
  }

  lemma CommitExactly(s: State, ids: seq<RecordId>, order: seq<RecordId>)
    requires CommitAssignment(s, ExistingRows(s, Elements(ids)), order).1 == Assigned
    ensures AssignedExactly(s, ids, order, CommitAssignment(s, ExistingRows(s, Elements(ids)), order).0)
  {
    hide ExistingRows, MintedFor, FreeRun, MintedIds, ForeignKeysHold;
    var existing := ExistingRows(s, Elements(ids));
    var inserts := existing + MintedFor(order, s.nextPgc);
    MintingInserts(order, s.nextPgc, existing);
    MintNone(s);
    if inserts == map[] {
      assert inserts.Values == {};
    }
  }

  lemma AssignExactly(s: State, ids: seq<RecordId>, order: seq<RecordId>)
    requires ids != [] && Assign(s, ids, order).1 == Assigned
    ensures NoDuplicates(ids) && InvalidRows(s, Elements(ids)) == {}
    ensures FreeRun(s.pgcs, s.nextPgc, |order|) == |order|
    ensures AssignedExactly(s, ids, order, Assign(s, ids, order).0)
  {
    CommitExactly(s, ids, order);
  }

  lemma FinalPgcOfNew(s: State, ids: seq<RecordId>, order: seq<RecordId>, r: RecordId)
    requires r in s.content.records && r in order
    ensures FinalPgc(s, ids, order, r) == Some(Pgc(s.nextPgc + IndexOf(order, r)))
  {
    MintedForOne(order, s.nextPgc, r);
  }

  lemma NewGets(s: State, ids: seq<RecordId>, order: seq<RecordId>, r: RecordId)
    requires ids != [] && Lists(order, NewRows(s, Elements(ids))) && Assign(s, ids, order).1 == Assigned && r in order
    ensures var t := Assign(s, ids, order).0;
            && r in s.content.records && r in t.content.records
            && t.content.records[r] == s.content.records[r].(pgc := Some(Pgc(s.nextPgc + IndexOf(order, r))))
  {
    hide Assign, FinalPgc, MintedFor;
    AssignExactly(s, ids, order);
    assert r in NewRows(s, Elements(ids));
    FinalPgcOfNew(s, ids, order, r);
  }

  lemma MatchedGets(s: State, ids: seq<RecordId>, order: seq<RecordId>, r: RecordId)
    requires ids != [] && Lists(order, NewRows(s, Elements(ids))) && Assign(s, ids, order).1 == Assigned
    requires r in ExistingRows(s, Elements(ids))
    ensures var t := Assign(s, ids, order).0;
            && r in s.content.records && r in t.content.records
            && t.content.records[r] == s.content.records[r].(pgc := Some(ExistingRows(s, Elements(ids))[r]))
  {
    AssignExactly(s, ids, order);
    assert r in order ==> r in NewRows(s, Elements(ids));
  }

  /** Everyone else keeps the record: those not asked for and those that already had a PGC. */
  lemma OthersKeep(s: State, ids: seq<RecordId>, order: seq<RecordId>, r: RecordId)
    requires ids != [] && Lists(order, NewRows(s, Elements(ids))) && Assign(s, ids, order).1 == Assigned
    requires r in s.content.records && r !in order && r !in ExistingRows(s, Elements(ids))
    ensures var t := Assign(s, ids, order).0;
            r in t.content.records && t.content.records[r] == s.content.records[r]
  {
    AssignExactly(s, ids, order);
  }

  /** What a caller sees of a successful assignment. */
  lemma AssignedRecords(s: State, ids: seq<RecordId>, order: seq<RecordId>, r: RecordId)
    requires Valid(s) && Lists(order, NewRows(s, Elements(ids))) && Assign(s, ids, order).1 == Assigned
    requires r in s.content.records
    ensures var t := Assign(s, ids, order).0;
            && r in t.content.records
            && (r !in ids || s.content.records[r].pgc.Some? ==> t.content.records[r] == s.content.records[r])
            && (r in ids ==> t.content.records[r].pgc.Some?)
            && (r in ids && s.content.records[r].pgc.None? ==>
                  var p := t.content.records[r].pgc.value;
                  if MatchedToNone(s, r) then p !in s.pgcs && p in t.pgcs else MatchedTo(s, r, p))
  {
    if ids != [] {
      AssignExactly(s, ids, order);
      FreeRunFull(s.pgcs, s.nextPgc, |order|);
      if r in ids {
        StagedRows(s, ids, r);
        if r in order {
          MintedForOne(order, s.nextPgc, r);
        }
      } else {
        assert r in order ==> r in NewRows(s, Elements(ids));
      }
    }
  }

  /** New objects get different numbers. */
  lemma NewRecordsDistinct(s: State, ids: seq<RecordId>, order: seq<RecordId>, a: RecordId, b: RecordId)
    requires Valid(s) && Lists(order, NewRows(s, Elements(ids))) && Assign(s, ids, order).1 == Assigned
    requires a in NewRows(s, Elements(ids)) && b in NewRows(s, Elements(ids)) && a != b
    ensures Assign(s, ids, order).0.content.records[a].pgc != Assign(s, ids, order).0.content.records[b].pgc
  {
    assert a in ids && a in order && b in order;
    AssignExactly(s, ids, order);
    MintedForDistinct(order, s.nextPgc, a, b);
  }

  // ---- Repeating ----

  lemma EmptyListing<T(!new)>(order: seq<T>)
    requires Lists(order, {})
    ensures order == []
  {
    ListingSize(order, {});
  }

  lemma NothingLeft(s: State, ids: seq<RecordId>, order: seq<RecordId>, t: State)
    requires Valid(s) && Lists(order, NewRows(s, Elements(ids))) && Assign(s, ids, order) == (t, Assigned) && ids != []
    ensures InvalidRows(t, Elements(ids)) == {} && NewRows(t, Elements(ids)) == {}
    ensures ExistingRows(t, Elements(ids)) == map[]
  {
    hide Assign, Valid;
    AssignExactly(s, ids, order);
    forall r | r in ids ensures r in t.content.records && t.content.records[r].pgc.Some? {
      StagedRows(s, ids, r);
      AssignedRecords(s, ids, order, r);
    }
  }

  /** A repeated request finds nothing to do: no id is minted and nothing is touched. */
  lemma AssignIdempotent(s: State, ids: seq<RecordId>, order: seq<RecordId>, again: seq<RecordId>)
    requires Valid(s) && Lists(order, NewRows(s, Elements(ids))) && Assign(s, ids, order).1 == Assigned
    requires Lists(again, NewRows(Assign(s, ids, order).0, Elements(ids)))
    ensures Assign(Assign(s, ids, order).0, ids, again) == (Assign(s, ids, order).0, Assigned)
  {
    hide Valid;
    var t := Assign(s, ids, order).0;
    if ids != [] {
      AssignExactly(s, ids, order);
      NothingLeft(s, ids, order, t);
      EmptyListing(again);
      assert MintedFor(again, t.nextPgc) == map[];
    }
  }

  // ---- Writing PGCs directly ----

  lemma {:induction false} EntriesIff(pgcs: seq<Entry>, r: RecordId)
    requires IsDict(pgcs)
    ensures forall p :: r in Explicit(pgcs) && Explicit(pgcs)[r] == p <==> Entry(r, Some(p)) in pgcs
    ensures r in NewRecords(pgcs) <==> Entry(r, None) in pgcs
    ensures NoDuplicates(NewRecords(pgcs)) && forall x | x in NewRecords(pgcs) :: Entry(x, None) in pgcs
  {
    if pgcs != [] {
      var front, last := pgcs[..|pgcs| - 1], pgcs[|pgcs| - 1];
      assert pgcs == front + [last];
      EntriesIff(front, r);
      forall e | e in front ensures e.record != last.record {
        var i :| 0 <= i < |front| && front[i] == e;
        assert pgcs[i].record != pgcs[|pgcs| - 1].record;
      }
    }
  }

  /** The PGC an entry stands for: the one it gives, or an id never seen before. */
  ghost predicate GetsPgc(st: State, t: State, e: Entry)
    requires e.record in st.content.records && e.record in t.content.records
  {
    && t.content.records[e.record].table == st.content.records[e.record].table
    && match e.pgc
       case Some(p) => t.content.records[e.record].pgc == Some(p)
       case None =>
         var p := t.content.records[e.record].pgc;
         p.Some? && p.value !in st.pgcs && p.value in t.pgcs && t.pgcs[p.value] == st.clock
  }

  ghost function InsertsOf(st: State, pgcs: seq<Entry>): map<RecordId, Pgc> {
    MintedFor(NewRecords(pgcs), st.nextPgc) + Explicit(pgcs)
  }

  lemma InsertFacts(st: State, pgcs: seq<Entry>, r: RecordId)
    requires IsDict(pgcs)
    ensures forall p | Entry(r, Some(p)) in pgcs :: r in InsertsOf(st, pgcs) && InsertsOf(st, pgcs)[r] == p
    ensures Entry(r, None) in pgcs ==>
      && r in NewRecords(pgcs) && r in InsertsOf(st, pgcs)
      && InsertsOf(st, pgcs)[r] == Pgc(st.nextPgc + IndexOf(NewRecords(pgcs), r))
    ensures r in InsertsOf(st, pgcs) ==> exists e :: e in pgcs && e.record == r
  {
    EntriesIff(pgcs, r);
    if Entry(r, None) in pgcs {
      MintedForOne(NewRecords(pgcs), st.nextPgc, r);
      assert r !in Explicit(pgcs) by {
        if r in Explicit(pgcs) {
          assert Entry(r, Some(Explicit(pgcs)[r])) in pgcs;
          DictHasOne(pgcs, Entry(r, None), Entry(r, Some(Explicit(pgcs)[r])));
        }
      }
    }
  }

  lemma DictHasOne(pgcs: seq<Entry>, a: Entry, b: Entry)
    requires IsDict(pgcs) && a in pgcs && b in pgcs && a.record == b.record
    ensures a == b
  {}

  /** The state after a success, entry by entry. */
  lemma UpsertedState(st: State, pgcs: seq<Entry>)
    requires Upsert(st, pgcs).1 == Assigned
    ensures var (t, inserts) := (Upsert(st, pgcs).0, InsertsOf(st, pgcs));
      && FreeRun(st.pgcs, st.nextPgc, |NewRecords(pgcs)|) == |NewRecords(pgcs)|
      && t.content == st.content.(records := WithPgcs(st.content.records, inserts))
      && t.pgcs.Keys == st.pgcs.Keys + MintedIds(st.nextPgc, |NewRecords(pgcs)|)
      && (forall p | p in t.pgcs :: t.pgcs[p] ==
            if p in inserts.Values || p in PreviousPgcs(st, inserts) then st.clock
            else if p in st.pgcs && p !in MintedIds(st.nextPgc, |NewRecords(pgcs)|) then st.pgcs[p] else st.clock)
  {
    hide FreeRun, MintedIds, MintedFor, Explicit, NewRecords, ForeignKeysHold;
    var inserts := InsertsOf(st, pgcs);
    if inserts == map[] {
      assert WithPgcs(st.content.records, inserts) == st.content.records;
      assert inserts.Values == {} && PreviousPgcs(st, inserts) == {};
    }
  }

  lemma UpsertedRecord(st: State, pgcs: seq<Entry>, e: Entry)
    requires IsDict(pgcs) && Upsert(st, pgcs).1 == Assigned && e in pgcs && e.record in st.content.records
    ensures e.record in Upsert(st, pgcs).0.content.records && GetsPgc(st, Upsert(st, pgcs).0, e)
  {
    hide Upsert, FreeRun, InsertsOf;
    UpsertedState(st, pgcs);
    InsertFacts(st, pgcs, e.record);
    if e.pgc.None? {
      FreeRunFull(st.pgcs, st.nextPgc, |NewRecords(pgcs)|);
      assert InsertsOf(st, pgcs)[e.record] in MintedIds(st.nextPgc, |NewRecords(pgcs)|);
      assert InsertsOf(st, pgcs)[e.record] in InsertsOf(st, pgcs).Values;
    }
  }

  /** Every named record gets its PGC, new ones fresh and different ids, and nobody else is changed. */
  lemma UpsertedExactly(st: State, pgcs: seq<Entry>)
    requires IsDict(pgcs) && Upsert(st, pgcs).1 == Assigned
    ensures var t := Upsert(st, pgcs).0;
      && t.content == st.content.(records := t.content.records)
      && t.content.records.Keys == st.content.records.Keys
      && (forall e | e in pgcs && e.record in st.content.records :: GetsPgc(st, t, e))
      && (forall r | r in st.content.records && !IsNamed(pgcs, r) :: t.content.records[r] == st.content.records[r])
      && (forall a, b | Entry(a, None) in pgcs && Entry(b, None) in pgcs && a != b
              && a in st.content.records && b in st.content.records ::
            t.content.records[a].pgc != t.content.records[b].pgc)
  {
    hide Upsert, FreeRun, InsertsOf, GetsPgc, NewRecords;
    UpsertedState(st, pgcs);
    forall e | e in pgcs && e.record in st.content.records ensures GetsPgc(st, Upsert(st, pgcs).0, e) {
      UpsertedRecord(st, pgcs, e);
    }
    forall r | r in st.content.records && !IsNamed(pgcs, r) ensures r !in InsertsOf(st, pgcs) {
      InsertFacts(st, pgcs, r);
    }
    forall a, b | Entry(a, None) in pgcs && Entry(b, None) in pgcs && a != b
      ensures a in InsertsOf(st, pgcs) && b in InsertsOf(st, pgcs) && InsertsOf(st, pgcs)[a] != InsertsOf(st, pgcs)[b]
    {
      InsertFacts(st, pgcs, a);
      InsertFacts(st, pgcs, b);
    }
  }

  predicate IsNamed(pgcs: seq<Entry>, r: RecordId) {
    exists e | e in pgcs :: e.record == r
  }

  /** Touched are the PGCs that named records had, those that entries give, and the new ones; the others keep their time. */
  lemma UpsertedTouches(st: State, pgcs: seq<Entry>, p: Pgc)
    requires IsDict(pgcs) && Upsert(st, pgcs).1 == Assigned && p in st.pgcs
    ensures var t := Upsert(st, pgcs).0;
      && p in t.pgcs
      && t.pgcs[p] ==
           if (exists e :: e in pgcs && e.pgc == Some(p))
              || (exists r :: r in st.content.records && IsNamed(pgcs, r) && st.content.records[r].pgc == Some(p))
           then st.clock else st.pgcs[p]
  {
    hide Upsert, FreeRun, InsertsOf, NewRecords, Explicit;
    UpsertedState(st, pgcs);
    FreeRunFull(st.pgcs, st.nextPgc, |NewRecords(pgcs)|);
    var inserts := InsertsOf(st, pgcs);
    forall e | e in pgcs ensures e.record in inserts && (e.pgc.Some? ==> inserts[e.record] == e.pgc.value) {
      InsertFacts(st, pgcs, e.record);
      assert e == if e.pgc.Some? then Entry(e.record, Some(e.pgc.value)) else Entry(e.record, None);
    }
    forall r | r in inserts ensures IsNamed(pgcs, r) && (inserts[r] == p ==> Entry(r, Some(p)) in pgcs) {
      InsertFacts(st, pgcs, r);
      var e :| e in pgcs && e.record == r;
      if e.pgc.None? {
        assert inserts[r] in MintedIds(st.nextPgc, |NewRecords(pgcs)|);
        assert inserts[r] != p;
      }
    }
    if e :| e in pgcs && e.pgc == Some(p) {
      assert inserts[e.record] == p;
    }
  }
}

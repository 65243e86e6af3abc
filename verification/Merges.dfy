/** Merges of PGCs act on records as the composition of their source-to-target maps. */
module Merges {
  import opened Collections
  import opened Schema
  import opened Storage
  import opened Records

  datatype Request = Request(target: Pgc, sources: seq<Pgc>)

  ghost predicate Accepted(st: State, q: Request) {
    Merge(st, q.target, q.sources).1.Merged?
  }

  ghost function AfterMerge(st: State, q: Request): State {
    Merge(st, q.target, q.sources).0
  }

  /** The map of one request, the identity if it is refused. */
  ghost function Redirect(st: State, q: Request, p: Pgc): Pgc {
    if Accepted(st, q) && p in q.sources then q.target else p
  }

  ghost function AfterMerges(st: State, qs: seq<Request>): State {
    if qs == [] then st else AfterMerge(AfterMerges(st, qs[..|qs| - 1]), qs[|qs| - 1])
  }

  /** The composition of the maps, all decided on the first state. */
  ghost function Redirected(st: State, qs: seq<Request>, p: Pgc): Pgc {
    if qs == [] then p else Redirect(st, qs[|qs| - 1], Redirected(st, qs[..|qs| - 1], p))
  }

  ghost function RedirectedRecord(st: State, qs: seq<Request>, rec: Record): Record {
    if rec.pgc.None? then rec else rec.(pgc := Some(Redirected(st, qs, rec.pgc.value)))
  }

  /** A merge moves records only: same records, same PGCs, same other tables. */
  ghost predicate Conserves(s: State, t: State) {
    && t.content == s.content.(records := t.content.records)
    && t.content.records.Keys == s.content.records.Keys
    && t.pgcs.Keys == s.pgcs.Keys
    && t == s.(content := t.content, pgcs := t.pgcs, clock := t.clock)
  }

  lemma {:induction false} FirstMissingSame(ids: seq<Pgc>, a: map<Pgc, Time>, b: map<Pgc, Time>)
    requires a.Keys == b.Keys
    ensures FirstMissing(ids, a) == FirstMissing(ids, b)
  {
    if ids != [] {
      assert ids[0] in a.Keys <==> ids[0] in b.Keys;
      FirstMissingSame(ids[1..], a, b);
    }
  }

  lemma {:induction false} FirstMissingNone(ids: seq<Pgc>, pgcs: map<Pgc, Time>)
    ensures FirstMissing(ids, pgcs) == None <==> forall p | p in ids :: p in pgcs
    ensures FirstMissing(ids, pgcs).Some? ==> FirstMissing(ids, pgcs).value in ids && FirstMissing(ids, pgcs).value !in pgcs
  {
    if ids != [] {
      FirstMissingNone(ids[1..], pgcs);
      assert forall p | p in ids :: p == ids[0] || p in ids[1..];
      assert ids[0] in ids;
    }
  }

  /** A request is accepted exactly if it is well-formed and every PGC it names exists; otherwise nothing changes. */
  lemma AcceptedIff(st: State, q: Request)
    ensures Accepted(st, q) <==>
              && q.sources != [] && q.target !in q.sources
              && (forall i, j | 0 <= i < j < |q.sources| :: q.sources[i] != q.sources[j])
              && q.target in st.pgcs && forall p | p in q.sources :: p in st.pgcs
    ensures !Accepted(st, q) ==> AfterMerge(st, q) == st
  {
    FirstMissingNone(q.sources, st.pgcs);
  }

  /** `p` does not exist, and of the target and the sources, in this order, those before it do. */
  ghost predicate FirstUnknown(st: State, q: Request, p: Pgc) {
    var named := [q.target] + q.sources;
    exists i :: 0 <= i < |named| && named[i] == p && p !in st.pgcs && forall j | 0 <= j < i :: named[j] in st.pgcs
  }

  lemma {:induction false} FirstMissingAt(ids: seq<Pgc>, pgcs: map<Pgc, Time>) returns (i: nat)
    requires FirstMissing(ids, pgcs).Some?
    ensures i < |ids| && ids[i] == FirstMissing(ids, pgcs).value && ids[i] !in pgcs
    ensures forall j | 0 <= j < i :: ids[j] in pgcs
  {
    if ids[0] !in pgcs {
      i := 0;
    } else {
      var k := FirstMissingAt(ids[1..], pgcs);
      i := k + 1;
      assert forall j | 0 < j < i :: ids[j] == ids[1..][j - 1];
    }
  }

  lemma FirstUnknownUnique(st: State, q: Request, p: Pgc, r: Pgc)
    requires FirstUnknown(st, q, p) && FirstUnknown(st, q, r)
    ensures p == r
  {}

  /** A well-formed request that is refused is refused for the first PGC it names that does not exist. */
  lemma RefusedFor(st: State, q: Request, p: Pgc)
    requires q.sources != [] && q.target !in q.sources && NoDuplicates(q.sources)
    ensures Merge(st, q.target, q.sources).1 == NotFound(p) <==> FirstUnknown(st, q, p)
  {
    var named := [q.target] + q.sources;
    if q.target !in st.pgcs {
      assert named[0] == q.target && FirstUnknown(st, q, q.target);
    } else if FirstMissing(q.sources, st.pgcs).Some? {
      var i := FirstMissingAt(q.sources, st.pgcs);
      assert named[i + 1] == q.sources[i];
      assert forall j | 0 <= j < i + 1 :: named[j] == if j == 0 then q.target else q.sources[j - 1];
      assert FirstUnknown(st, q, q.sources[i]);
    } else {
      FirstMissingNone(q.sources, st.pgcs);
      assert forall p | p in named :: p in st.pgcs;
    }
    if FirstUnknown(st, q, p) && Merge(st, q.target, q.sources).1.NotFound? {
      FirstUnknownUnique(st, q, p, Merge(st, q.target, q.sources).1.pgc);
    }
  }

  lemma MergeStep(s: State, q: Request)
    ensures Conserves(s, AfterMerge(s, q))
    ensures forall r | r in s.content.records ::
              AfterMerge(s, q).content.records[r] ==
              (var rec := s.content.records[r];
               if rec.pgc.None? then rec else rec.(pgc := Some(Redirect(s, q, rec.pgc.value))))
  {
    AcceptedIff(s, q);
    assert forall p :: p in Elements(q.sources) <==> p in q.sources;
  }

  lemma AcceptedSame(s: State, t: State, q: Request)
    requires s.pgcs.Keys == t.pgcs.Keys
    ensures Accepted(s, q) <==> Accepted(t, q)
  {
    FirstMissingSame(q.sources, s.pgcs, t.pgcs);
    assert q.target in s.pgcs.Keys <==> q.target in t.pgcs.Keys;
  }

  /** Over any sequence of requests each record ends with the composed map applied to its first PGC. */
  lemma {:induction false} MergesCompose(s: State, qs: seq<Request>)
    ensures Conserves(s, AfterMerges(s, qs))
    ensures forall r | r in s.content.records ::
              AfterMerges(s, qs).content.records[r] == RedirectedRecord(s, qs, s.content.records[r])
  {
    if qs != [] {
      var front, q := qs[..|qs| - 1], qs[|qs| - 1];
      MergesCompose(s, front);
      var m := AfterMerges(s, front);
      MergeStep(m, q);
      AcceptedSame(s, m, q);
    }
  }

  /** Records once together stay together. */
  lemma MergesKeepTogether(s: State, qs: seq<Request>, a: RecordId, b: RecordId)
    requires a in s.content.records && b in s.content.records
    requires s.content.records[a].pgc == s.content.records[b].pgc
    ensures var t := AfterMerges(s, qs);
            a in t.content.records && b in t.content.records && t.content.records[a].pgc == t.content.records[b].pgc
  {
    MergesCompose(s, qs);
  }

  /** The reported count is the number of records that changed. */
  lemma MergeCountExact(s: State, q: Request)
    requires Accepted(s, q)
    ensures Merge(s, q.target, q.sources).1.count ==
            |set r | r in s.content.records && AfterMerge(s, q).content.records[r] != s.content.records[r]|
  {
    MergeStep(s, q);
    AcceptedIff(s, q);
    assert RecordsOf(s.content, Elements(q.sources)) ==
           set r | r in s.content.records && AfterMerge(s, q).content.records[r] != s.content.records[r];
  }

  /** After a merge no record carries a source. */
  lemma SourcesVacated(s: State, q: Request, r: RecordId)
    requires Accepted(s, q) && r in AfterMerge(s, q).content.records
    ensures AfterMerge(s, q).content.records[r].pgc.Some? ==> AfterMerge(s, q).content.records[r].pgc.value !in q.sources
  {
    MergeStep(s, q);
    AcceptedIff(s, q);
  }

  lemma TwoRetargetsAreOne(s: State, target: Pgc, first: set<Pgc>, second: set<Pgc>)
    requires target !in first && target !in second
    ensures var two, one := MergeInto(MergeInto(s, target, first), target, second), MergeInto(s, target, first + second);
            && two.content == one.content
            && two == one.(pgcs := two.pgcs, clock := two.clock)
            && (Valid(s) ==> SameTouches(s, one, two))
  {
    assert Retarget(Retarget(s.content.records, target, first), target, second) ==
           Retarget(s.content.records, target, first + second);
  }

  /** The second merge moves just the records the joint one would move beyond the first. */
  lemma MovedTwice(db: Content, target: Pgc, first: set<Pgc>, second: set<Pgc>)
    requires target !in first && target !in second
    ensures var between := db.(records := Retarget(db.records, target, first));
            |RecordsOf(db, first + second)| == |RecordsOf(db, first)| + |RecordsOf(between, second)|
  {
    var between := db.(records := Retarget(db.records, target, first));
    assert RecordsOf(db, first + second) == RecordsOf(db, first) + RecordsOf(between, second);
    assert RecordsOf(db, first) !! RecordsOf(between, second);
  }

  lemma AcceptedTogether(s: State, target: Pgc, first: seq<Pgc>, second: seq<Pgc>, both: seq<Pgc>)
    requires first != [] && second != [] && NoDuplicates(first) && NoDuplicates(second) && NoDuplicates(both)
    requires Elements(both) == Elements(first) + Elements(second)
    ensures Accepted(s, Request(target, both)) <==>
              Accepted(s, Request(target, first)) && Accepted(s, Request(target, second))
  {
    assert forall p :: p in both <==> p in Elements(both);
    assert forall p :: p in first <==> p in Elements(first);
    assert forall p :: p in second <==> p in Elements(second);
    assert first[0] in Elements(both);
    AcceptedIff(s, Request(target, both));
    AcceptedIff(s, Request(target, first));
    AcceptedIff(s, Request(target, second));
  }

  /**
   * Two requests for one target are one request for all their sources: accepted together, with the same records moved
   * and the same PGCs touched, and with counts that add up.
   */
  lemma TwoMergesAreOne(s: State, target: Pgc, first: seq<Pgc>, second: seq<Pgc>, both: seq<Pgc>)
    requires first != [] && second != [] && NoDuplicates(first) && NoDuplicates(second) && NoDuplicates(both)
    requires Elements(both) == Elements(first) + Elements(second)
    ensures var between := Merge(s, target, first);
            var two, one := Merge(between.0, target, second), Merge(s, target, both);
            && (one.1.Merged? <==> between.1.Merged? && two.1.Merged?)
            && (one.1.Merged? ==>
                  && one.1.count == between.1.count + two.1.count
                  && two.0.content == one.0.content
                  && two.0 == one.0.(pgcs := two.0.pgcs, clock := two.0.clock)
                  && (Valid(s) ==> SameTouches(s, one.0, two.0)))
  {
    hide MergeInto, RecordsOf, Retarget, Valid, Elements, SameTouches;
    var q := Request(target, first);
    AcceptedTogether(s, target, first, second, both);
    MergeStep(s, q);
    AcceptedSame(s, AfterMerge(s, q), Request(target, second));
    AcceptedIff(s, q);
    AcceptedIff(s, Request(target, second));
    AcceptedIff(s, Request(target, both));
    if Accepted(s, Request(target, both)) {
      assert target !in Elements(first) && target !in Elements(second) by {
        NotElements(first, target);
        NotElements(second, target);
      }
      TwoRetargetsAreOne(s, target, Elements(first), Elements(second));
      MovedTwice(s.content, target, Elements(first), Elements(second));
      MergedContent(s, target, Elements(first));
    }
  }

  lemma NotElements(sources: seq<Pgc>, p: Pgc)
    ensures p in Elements(sources) <==> p in sources
  {}

  lemma MergedContent(s: State, target: Pgc, sources: set<Pgc>)
    ensures MergeInto(s, target, sources).content == s.content.(records := Retarget(s.content.records, target, sources))
  {}
}

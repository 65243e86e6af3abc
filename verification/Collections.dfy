/** Finite sets listed as sequences, and what a sequence keeps when it is reordered. */
module Collections {

  datatype Option<+T> = None | Some(value: T)

  /** An object number of the Principal Galaxy Catalogue. */
  datatype Pgc = Pgc(number: int)

  ghost predicate StrictlyIncreasing(s: seq<Pgc>) {
    forall i, j | 0 <= i < j < |s| :: s[i].number < s[j].number
  }

  ghost predicate NoDuplicates<T>(s: seq<T>) {
    forall i, j | 0 <= i < j < |s| :: s[i] != s[j]
  }

  function Elements<T(==)>(s: seq<T>): set<T> {
    set x | x in s
  }

  /** `s` names every element of `elements` once and nothing else. */
  ghost predicate Lists<T(!new)>(s: seq<T>, elements: set<T>) {
    NoDuplicates(s) && forall x :: x in s <==> x in elements
  }

  lemma Member<T>(s: set<T>) returns (x: T)
    requires s != {}
    ensures x in s
  {
    x :| x in s;
  }

  lemma MinExists(s: set<Pgc>)
    requires s != {}
    ensures exists m :: m in s && forall x | x in s :: m.number <= x.number
  {
    var x := Member(s);
    var rest := s - {x};
    assert s == rest + {x};
    if rest == {} {
      assert x in s && forall y | y in s :: x.number <= y.number;
    } else {
      MinExists(rest);
      var m :| m in rest && forall y | y in rest :: m.number <= y.number;
      assert forall y | y in s :: y == x || y in rest;
      assert (if x.number < m.number then x else m) in s;
    }
  }

  function Min(s: set<Pgc>): (m: Pgc)
    requires s != {}
    ensures m in s && forall x | x in s :: m.number <= x.number
  {
    MinExists(s);
    var m :| m in s && forall x | x in s :: m.number <= x.number;
    m
  }

  /** The elements of `s` in increasing order. */
  function Ascending(s: set<Pgc>): (r: seq<Pgc>)
    ensures StrictlyIncreasing(r)
    ensures |r| == |s|
    ensures forall x :: x in r <==> x in s
  {
    if s == {} then [] else
      var m := Min(s);
      [m] + Ascending(s - {m})
  }

  lemma IncreasingTail(r: seq<Pgc>)
    requires StrictlyIncreasing(r) && r != []
    ensures StrictlyIncreasing(r[1..])
    ensures forall x :: x in r[1..] <==> x in r && x != r[0]
    ensures forall x | x in r :: r[0].number <= x.number
  {
    assert r == [r[0]] + r[1..];
    assert r[0] !in r[1..];
  }

  lemma AscendingHead(r: seq<Pgc>, s: set<Pgc>)
    requires StrictlyIncreasing(r) && r != [] && forall x :: x in r <==> x in s
    ensures s != {} && r[0] == Min(s)
    ensures forall x :: x in r[1..] <==> x in s - {Min(s)}
  {
    IncreasingTail(r);
    assert r[0] in s;
    assert Min(s) in r;
  }

  lemma AscendingUnfolds(s: set<Pgc>)
    requires s != {}
    ensures Ascending(s) == [Min(s)] + Ascending(s - {Min(s)})
  {}

  lemma NothingListed(s: set<Pgc>)
    requires forall x :: x !in s
    ensures Ascending(s) == []
  {
    assert s == {};
  }

  /** An increasing listing of a set is the only one. */
  lemma {:induction false} AscendingUnique(r: seq<Pgc>, s: set<Pgc>)
    requires StrictlyIncreasing(r) && forall x :: x in r <==> x in s
    ensures r == Ascending(s)
  {
    hide StrictlyIncreasing, Ascending, Min;
    if r == [] {
      NothingListed(s);
    } else {
      AscendingHead(r, s);
      IncreasingTail(r);
      AscendingUnique(r[1..], s - {Min(s)});
      AscendingUnfolds(s);
    }
  }

  lemma SplitAt<T(!new)>(s: seq<T>, k: nat)
    requires k <= |s|
    ensures s == s[..k] + s[k..]
    ensures forall x :: x in s <==> x in s[..k] || x in s[k..]
  {
    assert s == s[..k] + s[k..];
  }

  lemma IncreasingSplit(all: seq<Pgc>, k: nat)
    requires StrictlyIncreasing(all) && 0 < k <= |all|
    ensures StrictlyIncreasing(all[..k]) && StrictlyIncreasing(all[k..])
    ensures forall p | p in all[..k] :: p.number <= all[k - 1].number
    ensures forall p | p in all[k..] :: p.number > all[k - 1].number
  {
    forall p | p in all[..k] ensures p.number <= all[k - 1].number {
      var i :| 0 <= i < k && all[i] == p;
    }
    forall p | p in all[k..] ensures p.number > all[k - 1].number {
      var i :| k <= i < |all| && all[i] == p;
    }
  }

  /** The k least elements, and an increasing listing of the ones beyond them. */
  lemma AscendingSplit(s: set<Pgc>, k: nat, above: set<Pgc>)
    requires 0 < k <= |Ascending(s)|
    requires forall p :: p in above <==> p in s && p.number > Ascending(s)[k - 1].number
    ensures above == s - Elements(Ascending(s)[..k]) && Elements(Ascending(s)[..k]) <= s
    ensures Ascending(s)[k..] == Ascending(above)
  {
    var all := Ascending(s);
    IncreasingSplit(all, k);
    SplitAt(all, k);
    AscendingUnique(all[k..], above);
  }

  function First(s: seq<Pgc>, n: nat): (r: seq<Pgc>)
    ensures r <= s && |r| == if |s| < n then |s| else n
  {
    if n < |s| then s[..n] else s
  }

  ghost function Listing<T(!new)>(s: set<T>): (r: seq<T>)
    ensures NoDuplicates(r)
    ensures forall x :: x in r <==> x in s
  {
    if s == {} then [] else
      var x :| x in s;
      [x] + Listing(s - {x})
  }

  /** `s` without its i-th element. */
  function Without<T>(s: seq<T>, i: nat): (r: seq<T>)
    requires i < |s|
    ensures multiset(s) == multiset(r) + multiset{s[i]}
  {
    assert s == s[..i] + [s[i]] + s[i + 1..];
    s[..i] + s[i + 1..]
  }

  /** Where a rearrangement of `a` has the first element of `a`. */
  lemma MatchFirst<T>(a: seq<T>, b: seq<T>) returns (i: nat)
    requires a != [] && multiset(a) == multiset(b)
    ensures i < |b| && b[i] == a[0]
    ensures multiset(Without(a, 0)) == multiset(Without(b, i))
  {
    assert a[0] in multiset(a);
    assert a[0] in b;
    i :| 0 <= i < |b| && b[i] == a[0];
    assert multiset(Without(a, 0)) == multiset(a) - multiset{a[0]};
    assert multiset(Without(b, i)) == multiset(b) - multiset{a[0]};
  }

  lemma {:induction false} CountInNoDuplicates<T>(s: seq<T>, x: T)
    requires NoDuplicates(s)
    ensures multiset(s)[x] == if x in s then 1 else 0
  {
    if s != [] {
      assert s == [s[0]] + s[1..];
      assert s[0] !in s[1..];
      CountInNoDuplicates(s[1..], x);
    }
  }

  /** Two duplicate-free listings of one set are rearrangements of each other. */
  lemma ListingsAgree<T(!new)>(a: seq<T>, b: seq<T>)
    requires NoDuplicates(a) && NoDuplicates(b)
    requires forall x :: x in a <==> x in b
    ensures multiset(a) == multiset(b)
  {
    forall x ensures multiset(a)[x] == multiset(b)[x] {
      CountInNoDuplicates(a, x);
      CountInNoDuplicates(b, x);
    }
  }

  lemma {:induction false} ListingSize<T(!new)>(s: seq<T>, elements: set<T>)
    requires Lists(s, elements)
    ensures |s| == |elements|
  {
    if s == [] {
      if elements != {} {
        var x := Member(elements);
        assert false;
      }
    } else {
      var rest := elements - {s[0]};
      forall x ensures x in s[1..] <==> x in rest {
        if x in rest {
          var i :| 0 <= i < |s| && s[i] == x;
          assert s[1..][i - 1] == x;
        }
      }
      ListingSize(s[1..], rest);
    }
  }

  function Count<T(==)>(s: seq<T>, x: T): nat {
    if s == [] then 0 else (if s[0] == x then 1 else 0) + Count(s[1..], x)
  }

  lemma {:induction false} CountAppend<T>(a: seq<T>, b: seq<T>, x: T)
    ensures Count(a + b, x) == Count(a, x) + Count(b, x)
  {
    if a == [] {
      assert a + b == b;
    } else {
      assert (a + b)[1..] == a[1..] + b;
      CountAppend(a[1..], b, x);
    }
  }

  lemma {:induction false} CountIsMultiplicity<T>(s: seq<T>, x: T)
    ensures Count(s, x) == multiset(s)[x]
  {
    if s != [] {
      assert s == [s[0]] + s[1..];
      CountIsMultiplicity(s[1..], x);
    }
  }

  lemma SameCounts<T(!new)>(a: seq<T>, b: seq<T>)
    requires forall x :: Count(a, x) == Count(b, x)
    ensures multiset(a) == multiset(b)
  {
    forall x ensures multiset(a)[x] == multiset(b)[x] {
      CountIsMultiplicity(a, x);
      CountIsMultiplicity(b, x);
    }
  }

  lemma {:induction false} CountMember<T>(s: seq<T>, x: T)
    ensures Count(s, x) > 0 <==> x in s
  {
    if s != [] {
      assert s == [s[0]] + s[1..];
      CountMember(s[1..], x);
    }
  }

  /** The keys of a dict filled from `s`: each element once, where it is first seen. */
  function FirstOccurrences<T(==)>(s: seq<T>): seq<T> {
    if s == [] then [] else
      var before, last := FirstOccurrences(s[..|s| - 1]), s[|s| - 1];
      if last in before then before else before + [last]
  }

  lemma {:induction false} FirstOccurrencesList<T(!new)>(s: seq<T>)
    ensures forall x :: x in FirstOccurrences(s) <==> x in s
    ensures NoDuplicates(FirstOccurrences(s)) && Elements(FirstOccurrences(s)) == Elements(s)
  {
    if s != [] {
      var front, last := s[..|s| - 1], s[|s| - 1];
      FirstOccurrencesList(front);
      assert s == front + [last];
      assert forall x :: x in s <==> x in front || x == last;
    }
    forall x ensures x in Elements(FirstOccurrences(s)) <==> x in Elements(s) {}
  }

  /** Of two keys the one listed first is the one seen first. */
  lemma {:induction false} FirstOccurrencesOrder<T(!new)>(s: seq<T>, i: nat, j: nat) returns (k: nat)
    requires i < j < |FirstOccurrences(s)|
    ensures k < |s| && s[k] == FirstOccurrences(s)[i] && forall l | 0 <= l <= k :: s[l] != FirstOccurrences(s)[j]
  {
    var front := s[..|s| - 1];
    FirstOccurrencesList(front);
    if j < |FirstOccurrences(front)| {
      k := FirstOccurrencesOrder(front, i, j);
      assert forall l | 0 <= l <= k :: s[l] == front[l];
    } else {
      assert FirstOccurrences(s)[i] in FirstOccurrences(front);
      assert FirstOccurrences(s)[i] in front;
      k :| k < |front| && front[k] == FirstOccurrences(s)[i];
      assert forall l | 0 <= l <= k :: s[l] in front;
    }
  }
}

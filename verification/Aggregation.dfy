/** From the layer-1 rows of a batch to one layer-2 row per PGC. */
module Aggregation {
  import opened Collections
  import opened Schema

  /** One row of a batch as the readers return it. */
  datatype Sample = Sample(pgc: Pgc, compilation: bool, row: Row)

  /** The quantity that is averaged. */
  datatype Part = RaPart | DecPart | CzPart

  /** Used when a redshift has no error, in km/s. */
  const DEFAULT_E_CZ := 100.0

  function Measure(part: Part, row: Row): Measurement {
    match (part, row)
    case (RaPart, IcrsRow(ra, _)) => ra
    case (DecPart, IcrsRow(_, dec)) => dec
    case (CzPart, RedshiftRow(cz, eCz)) => Measurement(cz, if eCz.Some? then eCz.value else DEFAULT_E_CZ)
    case _ => Measurement(0.0, 1.0)
  }

  function Text(row: Row): string {
    match row
    case DesignationRow(design) => design
    case NatureRow(typeName) => typeName
    case _ => ""
  }

  // ---- Selecting rows ----

  function PgcsOf(s: seq<Sample>): set<Pgc> {
    set x | x in s :: x.pgc
  }

  /** The rows of one PGC, in order. */
  function Select(s: seq<Sample>, p: Pgc): seq<Sample> {
    if s == [] then [] else (if s[0].pgc == p then [s[0]] else []) + Select(s[1..], p)
  }

  function PrimaryPgcs(s: seq<Sample>): set<Pgc> {
    set x | x in s && !x.compilation :: x.pgc
  }

  function Exclude(s: seq<Sample>, primary: set<Pgc>): seq<Sample> {
    if s == [] then [] else
      (if s[0].compilation && s[0].pgc in primary then [] else [s[0]]) + Exclude(s[1..], primary)
  }

  /** The mask over the whole table: a compilation goes if its PGC has a row that is not one. */
  function ExcludeCompilationsWithPrimary(s: seq<Sample>): seq<Sample> {
    Exclude(s, PrimaryPgcs(s))
  }

  function Primaries(s: seq<Sample>): seq<Sample> {
    if s == [] then [] else (if s[0].compilation then [] else [s[0]]) + Primaries(s[1..])
  }

  lemma {:induction false} SelectAppend(a: seq<Sample>, b: seq<Sample>, p: Pgc)
    ensures Select(a + b, p) == Select(a, p) + Select(b, p)
  {
    if a == [] {
      assert a + b == b;
    } else {
      assert (a + b)[1..] == a[1..] + b;
      SelectAppend(a[1..], b, p);
    }
  }

  lemma {:induction false} SelectElements(s: seq<Sample>, p: Pgc)
    ensures forall x :: x in Select(s, p) <==> x in s && x.pgc == p
  {
    if s != [] {
      SelectElements(s[1..], p);
      assert forall x :: x in s <==> x == s[0] || x in s[1..];
    }
  }

  lemma SelectNonEmpty(s: seq<Sample>, p: Pgc)
    ensures Select(s, p) != [] <==> p in PgcsOf(s)
  {
    SelectElements(s, p);
    if p in PgcsOf(s) {
      var x :| x in s && x.pgc == p;
      assert x in Select(s, p);
    } else {
      assert forall x :: x !in Select(s, p);
    }
  }

  lemma {:induction false} SelectAll(s: seq<Sample>, p: Pgc)
    requires forall x | x in s :: x.pgc == p
    ensures Select(s, p) == s
    ensures forall q | q != p :: Select(s, q) == []
  {
    if s != [] {
      SelectAll(s[1..], p);
      assert s == [s[0]] + s[1..];
    }
  }

  lemma {:induction false} ExcludeElements(s: seq<Sample>, primary: set<Pgc>)
    ensures forall x :: x in Exclude(s, primary) <==> x in s && !(x.compilation && x.pgc in primary)
  {
    if s != [] {
      ExcludeElements(s[1..], primary);
      assert forall x :: x in s <==> x == s[0] || x in s[1..];
    }
  }

  lemma {:induction false} SelectExclude(s: seq<Sample>, primary: set<Pgc>, p: Pgc)
    ensures Select(Exclude(s, primary), p) == Exclude(Select(s, p), primary)
  {
    if s != [] {
      var head := if s[0].compilation && s[0].pgc in primary then [] else [s[0]];
      SelectAppend(head, Exclude(s[1..], primary), p);
      SelectExclude(s[1..], primary, p);
      assert Exclude(s, primary) == head + Exclude(s[1..], primary);
      if s[0].pgc == p {
        assert Select(s, p) == [s[0]] + Select(s[1..], p);
        assert Select(s, p)[0] == s[0] && Select(s, p)[1..] == Select(s[1..], p);
        assert Select(head, p) == head by { SelectAll(head, p); }
      } else {
        assert Select(s, p) == Select(s[1..], p);
        assert Select(head, p) == [] by { SelectAll(head, s[0].pgc); }
      }
    }
  }

  lemma {:induction false} ExcludeAgree(s: seq<Sample>, a: set<Pgc>, b: set<Pgc>)
    requires forall x | x in s :: x.pgc in a <==> x.pgc in b
    ensures Exclude(s, a) == Exclude(s, b)
  {
    if s != [] {
      ExcludeAgree(s[1..], a, b);
    }
  }

  /** Masking the whole table and masking each PGC's rows on their own are the same. */
  lemma MaskIsPerPgc(s: seq<Sample>, p: Pgc)
    ensures Select(ExcludeCompilationsWithPrimary(s), p) == ExcludeCompilationsWithPrimary(Select(s, p))
  {
    SelectExclude(s, PrimaryPgcs(s), p);
    SelectElements(s, p);
    ExcludeAgree(Select(s, p), PrimaryPgcs(s), PrimaryPgcs(Select(s, p)));
  }

  /** On the rows of one PGC the mask drops the compilations exactly if some row is not one. */
  lemma {:induction false} MaskOfOnePgc(s: seq<Sample>, primary: set<Pgc>, p: Pgc)
    requires forall x | x in s :: x.pgc == p
    ensures Exclude(s, primary) == if p in primary then Primaries(s) else s
  {
    if s != [] {
      MaskOfOnePgc(s[1..], primary, p);
      assert s == [s[0]] + s[1..];
    }
  }

  lemma PerPgcRule(s: seq<Sample>, p: Pgc)
    ensures ExcludeCompilationsWithPrimary(Select(s, p)) ==
            if exists x :: x in s && x.pgc == p && !x.compilation then Primaries(Select(s, p)) else Select(s, p)
  {
    SelectElements(s, p);
    MaskOfOnePgc(Select(s, p), PrimaryPgcs(Select(s, p)), p);
    assert p in PrimaryPgcs(Select(s, p)) <==> exists x :: x in s && x.pgc == p && !x.compilation;
  }

  /** No PGC loses all its rows to the mask. */
  lemma MaskKeepsEveryPgc(s: seq<Sample>)
    ensures PgcsOf(ExcludeCompilationsWithPrimary(s)) == PgcsOf(s)
  {
    ExcludeElements(s, PrimaryPgcs(s));
    forall p | p in PgcsOf(s) ensures p in PgcsOf(ExcludeCompilationsWithPrimary(s)) {
      var x :| x in s && x.pgc == p;
      if p in PrimaryPgcs(s) {
        var y :| y in s && y.pgc == p && !y.compilation;
        assert y in ExcludeCompilationsWithPrimary(s);
      } else {
        assert x in ExcludeCompilationsWithPrimary(s);
      }
    }
  }

  // ---- Weighted means ----

  /** The inverse square of an error that is not zero. */
  function Weight(error: real): real {
    if error == 0.0 then 0.0 else 1.0 / (error * error)
  }

  function Moment(m: Measurement): real {
    m.value * Weight(m.error)
  }

  function WeightSum(s: seq<Sample>, part: Part): real {
    if s == [] then 0.0 else Weight(Measure(part, s[0].row).error) + WeightSum(s[1..], part)
  }

  function MomentSum(s: seq<Sample>, part: Part): real {
    if s == [] then 0.0 else
      Moment(Measure(part, s[0].row)) + MomentSum(s[1..], part)
  }

  function EstimateOf(moment: real, weight: real): Estimate {
    if weight == 0.0 then Estimate(0.0, 0.0) else Estimate(moment / weight, 1.0 / weight)
  }

  predicate SomeZeroError(s: seq<Sample>, part: Part) {
    exists x | x in s :: Measure(part, x.row).error == 0.0
  }

  /** A zero error has an infinite weight; the quotient of the sums is then no number, whatever the value. */
  function WeightedMean(s: seq<Sample>, part: Part): Estimate {
    if SomeZeroError(s, part) then NotANumber else EstimateOf(MomentSum(s, part), WeightSum(s, part))
  }

  /** One zero error among the rows that count is enough for the mean to be no number. */
  lemma MeanIsNumberIff(s: seq<Sample>, part: Part)
    ensures WeightedMean(s, part).Estimate? <==> forall x | x in s :: Measure(part, x.row).error != 0.0
  {
    if x :| x in s && Measure(part, x.row).error == 0.0 {
      assert SomeZeroError(s, part);
    }
  }

  lemma {:induction false} SumsAppend(a: seq<Sample>, b: seq<Sample>, part: Part)
    ensures WeightSum(a + b, part) == WeightSum(a, part) + WeightSum(b, part)
    ensures MomentSum(a + b, part) == MomentSum(a, part) + MomentSum(b, part)
  {
    hide Moment, Weight;
    if a == [] {
      assert a + b == b;
    } else {
      assert (a + b)[1..] == a[1..] + b;
      SumsAppend(a[1..], b, part);
    }
  }

  lemma SumsWithout(s: seq<Sample>, i: nat, part: Part)
    requires i < |s|
    ensures WeightSum(s, part) == WeightSum([s[i]], part) + WeightSum(Without(s, i), part)
    ensures MomentSum(s, part) == MomentSum([s[i]], part) + MomentSum(Without(s, i), part)
  {
    assert s == s[..i] + ([s[i]] + s[i + 1..]);
    SumsAppend(s[..i], [s[i]] + s[i + 1..], part);
    SumsAppend([s[i]], s[i + 1..], part);
    SumsAppend(s[..i], s[i + 1..], part);
  }

  /** The weighted mean ignores the order of the rows. */
  lemma MeanIgnoresOrder(a: seq<Sample>, b: seq<Sample>, part: Part)
    requires multiset(a) == multiset(b)
    ensures WeightedMean(a, part) == WeightedMean(b, part)
  {
    SumsIgnoreOrder(a, b, part);
    assert forall x :: x in a <==> x in multiset(a);
    assert forall x :: x in b <==> x in multiset(b);
  }

  /** The sums ignore the order of the rows. */
  lemma {:induction false} SumsIgnoreOrder(a: seq<Sample>, b: seq<Sample>, part: Part)
    requires multiset(a) == multiset(b)
    ensures WeightSum(a, part) == WeightSum(b, part) && MomentSum(a, part) == MomentSum(b, part)
  {
    if a == [] {
      assert |b| == |multiset(b)| == 0;
    } else {
      var i := MatchFirst(a, b);
      SumsWithout(a, 0, part);
      SumsWithout(b, i, part);
      SumsIgnoreOrder(Without(a, 0), Without(b, i), part);
    }
  }

  ghost predicate NoZeroError(s: seq<Sample>, part: Part) {
    forall x | x in s :: Measure(part, x.row).error != 0.0
  }

  lemma WeightPositive(error: real)
    requires error != 0.0
    ensures Weight(error) > 0.0 && Square(error) * Weight(error) == 1.0
  {
    SquarePositive(error);
  }

  lemma SquarePositive(x: real)
    requires x != 0.0
    ensures x * x > 0.0
  {}

  lemma MultiplyOrdered(x: real, y: real, w: real)
    requires x <= y && w >= 0.0
    ensures x * w <= y * w
  {
    assert (y - x) * w >= 0.0;
  }

  /** `moment` is `weight` times something between the bounds. */
  predicate Between(lo: real, moment: real, hi: real, weight: real) {
    lo * weight <= moment <= hi * weight
  }

  lemma SumStep(lo: real, hi: real, m: Measurement, moment: real, weight: real)
    requires lo <= m.value <= hi && Weight(m.error) > 0.0 && Between(lo, moment, hi, weight)
    ensures Between(lo, Moment(m) + moment, hi, Weight(m.error) + weight)
  {
    var w := Weight(m.error);
    MultiplyOrdered(lo, m.value, w);
    MultiplyOrdered(m.value, hi, w);
    assert lo * (w + weight) == lo * w + lo * weight;
    assert hi * (w + weight) == hi * w + hi * weight;
  }

  lemma {:induction false} SumBounds(s: seq<Sample>, part: Part, lo: real, hi: real)
    requires NoZeroError(s, part)
    requires forall x | x in s :: lo <= Measure(part, x.row).value <= hi
    ensures Between(lo, MomentSum(s, part), hi, WeightSum(s, part))
  {
    if s != [] {
      hide Between, Moment, Weight;
      assert s[0] in s;
      WeightPositive(Measure(part, s[0].row).error);
      SumBounds(s[1..], part, lo, hi);
      SumStep(lo, hi, Measure(part, s[0].row), MomentSum(s[1..], part), WeightSum(s[1..], part));
    }
  }

  lemma {:induction false} WeightBounds(s: seq<Sample>, part: Part)
    requires NoZeroError(s, part)
    ensures WeightSum(s, part) >= 0.0 && (s != [] ==> WeightSum(s, part) > 0.0)
    ensures forall x | x in s :: Weight(Measure(part, x.row).error) <= WeightSum(s, part)
  {
    if s != [] {
      assert s[0] in s;
      WeightPositive(Measure(part, s[0].row).error);
      WeightBounds(s[1..], part);
      assert forall x | x in s :: x == s[0] || x in s[1..];
    }
  }

  lemma EstimateBounds(moment: real, weight: real, lo: real, hi: real)
    requires weight > 0.0 && Between(lo, moment, hi, weight)
    ensures EstimateOf(moment, weight).Estimate? && lo <= EstimateOf(moment, weight).mean <= hi
    ensures EstimateOf(moment, weight).variance > 0.0
  {
    var q := moment / weight;
    assert q * weight == moment;
    if q < lo { MultiplyLess(q, lo, weight); }
    if q > hi { MultiplyLess(hi, q, weight); }
  }

  lemma MultiplyLess(x: real, y: real, w: real)
    requires x < y && w > 0.0
    ensures x * w < y * w
  {
    assert (y - x) * w > 0.0;
  }

  lemma InverseBound(e: real, w: real)
    requires e != 0.0 && w > 0.0 && Weight(e) <= w
    ensures 1.0 / w <= Square(e)
  {
    WeightPositive(e);
    SquarePositive(e);
    MultiplyOrdered(Weight(e), w, Square(e));
    var q := 1.0 / w;
    assert q * w == 1.0;
    if q > Square(e) { MultiplyLess(Square(e), q, w); }
  }

  function Square(x: real): real {
    x * x
  }

  /** The mean lies between any bounds on the values; no contributor is more certain than the mean. */
  lemma MeanBounds(s: seq<Sample>, part: Part, lo: real, hi: real)
    requires s != [] && NoZeroError(s, part)
    requires forall x | x in s :: lo <= Measure(part, x.row).value <= hi
    ensures WeightedMean(s, part).Estimate? && lo <= WeightedMean(s, part).mean <= hi
    ensures WeightedMean(s, part).variance > 0.0
    ensures forall x | x in s :: WeightedMean(s, part).variance <= Square(Measure(part, x.row).error)
  {
    SumBounds(s, part, lo, hi);
    WeightBounds(s, part);
    EstimateBounds(MomentSum(s, part), WeightSum(s, part), lo, hi);
    forall x | x in s ensures WeightedMean(s, part).variance <= Square(Measure(part, x.row).error) {
      InverseBound(Measure(part, x.row).error, WeightSum(s, part));
    }
  }

  /** Right ascension stays in [0, 360) and declination in [-90, 90], as the CHECK on icrs.data has them. */
  lemma MeanStaysOnSphere(s: seq<Sample>)
    requires s != [] && forall x | x in s ::
               x.row.IcrsRow? && 0.0 <= x.row.ra.value < 360.0 && -90.0 <= x.row.dec.value <= 90.0
    ensures WeightedMean(s, RaPart).Estimate? ==> 0.0 <= WeightedMean(s, RaPart).mean < 360.0
    ensures WeightedMean(s, DecPart).Estimate? ==> -90.0 <= WeightedMean(s, DecPart).mean <= 90.0
  {
    if NoZeroError(s, RaPart) {
      var top := LargestBelow(s, 360.0);
      MeanBounds(s, RaPart, 0.0, top);
    }
    if NoZeroError(s, DecPart) {
      MeanBounds(s, DecPart, -90.0, 90.0);
    }
  }

  lemma {:induction false} LargestBelow(s: seq<Sample>, bound: real) returns (top: real)
    requires forall x | x in s :: Measure(RaPart, x.row).value < bound
    ensures top < bound && forall x | x in s :: Measure(RaPart, x.row).value <= top
  {
    if s == [] {
      top := bound - 1.0;
    } else {
      top := LargestBelow(s[1..], bound);
      assert s[0] in s;
      top := if Measure(RaPart, s[0].row).value > top then Measure(RaPart, s[0].row).value else top;
      assert forall x | x in s :: x == s[0] || x in s[1..];
    }
  }

  /** An estimate taken as one more measurement: what combining two aggregates means. */
  function Combine(a: Estimate, b: Estimate): Estimate
    requires a.Estimate? && b.Estimate? && a.variance > 0.0 && b.variance > 0.0
  {
    EstimateOf(a.mean * (1.0 / a.variance) + b.mean * (1.0 / b.variance), 1.0 / a.variance + 1.0 / b.variance)
  }

  lemma MeansCombine(a: seq<Sample>, b: seq<Sample>, part: Part)
    requires a != [] && b != [] && NoZeroError(a, part) && NoZeroError(b, part)
    ensures WeightedMean(a, part).Estimate? && WeightedMean(a, part).variance > 0.0
    ensures WeightedMean(b, part).Estimate? && WeightedMean(b, part).variance > 0.0
    ensures WeightedMean(a + b, part) == Combine(WeightedMean(a, part), WeightedMean(b, part))
  {
    SumsAppend(a, b, part);
    EstimateRestoresSums(a, part);
    EstimateRestoresSums(b, part);
  }

  lemma EstimateRestoresSums(s: seq<Sample>, part: Part)
    requires s != [] && NoZeroError(s, part)
    ensures WeightedMean(s, part).Estimate? && WeightedMean(s, part).variance > 0.0
    ensures 1.0 / WeightedMean(s, part).variance == WeightSum(s, part)
    ensures WeightedMean(s, part).mean * (1.0 / WeightedMean(s, part).variance) == MomentSum(s, part)
  {
    WeightBounds(s, part);
    DoubleInverse(WeightSum(s, part));
    assert (MomentSum(s, part) / WeightSum(s, part)) * WeightSum(s, part) == MomentSum(s, part);
  }

  lemma DoubleInverse(w: real)
    requires w > 0.0
    ensures 1.0 / w > 0.0 && 1.0 / (1.0 / w) == w
  {
    var q := 1.0 / w;
    assert q * w == 1.0;
  }

  // ---- Which columns the means are of ----

  /** One measurement is its own mean, with the square of its error; without an error a redshift has one of 100 km/s. */
  lemma MeanOfOne(x: Sample)
    ensures match x.row
      case IcrsRow(ra, dec) =>
        && WeightedMean([x], RaPart) ==
             (if ra.error == 0.0 then NotANumber else Estimate(ra.value, ra.error * ra.error))
        && WeightedMean([x], DecPart) ==
             (if dec.error == 0.0 then NotANumber else Estimate(dec.value, dec.error * dec.error))
      case RedshiftRow(cz, eCz) =>
        var error := if eCz.Some? then eCz.value else 100.0;
        WeightedMean([x], CzPart) == if error == 0.0 then NotANumber else Estimate(cz, error * error)
      case _ => true
  {
    match x.row
    case IcrsRow(ra, dec) =>
      MeanOfMeasurement(x, RaPart, ra.value, ra.error);
      MeanOfMeasurement(x, DecPart, dec.value, dec.error);
    case RedshiftRow(cz, eCz) =>
      MeanOfMeasurement(x, CzPart, cz, if eCz.Some? then eCz.value else 100.0);
    case _ =>
  }

  lemma MeanOfMeasurement(x: Sample, part: Part, value: real, error: real)
    requires Measure(part, x.row) == Measurement(value, error)
    ensures WeightedMean([x], part) == if error == 0.0 then NotANumber else Estimate(value, error * error)
  {
    assert [x][1..] == [] && x in [x];
    if error != 0.0 {
      SquarePositive(error);
      var w := 1.0 / (error * error);
      assert w * (error * error) == 1.0;
      assert WeightSum([x], part) == w && MomentSum([x], part) == value * w;
      QuotientOfProduct(value, w);
      DoubleInverse(error * error);
    }
  }

  lemma QuotientOfProduct(x: real, w: real)
    requires w != 0.0
    ensures x * w / w == x
  {}

  /** Positions with errors: the means are numbers just if no error is zero, and as certain as each position. */
  lemma PositionMeans(s: seq<Sample>)
    requires forall x | x in s :: x.row.IcrsRow?
    ensures WeightedMean(s, RaPart).Estimate? <==> forall x | x in s :: x.row.ra.error != 0.0
    ensures WeightedMean(s, DecPart).Estimate? <==> forall x | x in s :: x.row.dec.error != 0.0
    ensures (forall x | x in s :: x.row.ra.error != 0.0) ==> forall x | x in s ::
      WeightedMean(s, RaPart).Estimate? && WeightedMean(s, RaPart).variance <= x.row.ra.error * x.row.ra.error
    ensures (forall x | x in s :: x.row.dec.error != 0.0) ==> forall x | x in s ::
      WeightedMean(s, DecPart).Estimate? && WeightedMean(s, DecPart).variance <= x.row.dec.error * x.row.dec.error
  {
    hide WeightedMean;
    MeanIsNumberIff(s, RaPart);
    MeanIsNumberIff(s, DecPart);
    VarianceBound(s, RaPart);
    VarianceBound(s, DecPart);
  }

  lemma VarianceBound(s: seq<Sample>, part: Part)
    ensures NoZeroError(s, part) ==> forall x | x in s ::
      && WeightedMean(s, part).Estimate?
      && WeightedMean(s, part).variance <= Measure(part, x.row).error * Measure(part, x.row).error
  {
    hide WeightedMean;
    if s != [] && NoZeroError(s, part) {
      var lo, hi := ValueBounds(s, part);
      MeanBounds(s, part, lo, hi);
    }
  }

  lemma {:induction false} ValueBounds(s: seq<Sample>, part: Part) returns (lo: real, hi: real)
    ensures forall x | x in s :: lo <= Measure(part, x.row).value <= hi
  {
    if s == [] {
      lo, hi := 0.0, 0.0;
    } else {
      lo, hi := ValueBounds(s[1..], part);
      var v := Measure(part, s[0].row).value;
      lo, hi := if v < lo then v else lo, if v > hi then v else hi;
      assert forall x | x in s :: x == s[0] || x in s[1..];
    }
  }

  // ---- Majority votes ----

  function Votes(s: seq<Sample>, text: string): nat {
    if s == [] then 0 else (if Text(s[0].row) == text then 1 else 0) + Votes(s[1..], text)
  }

  ghost predicate IsMajority(s: seq<Sample>, text: string) {
    Votes(s, text) > 0 && forall other :: Votes(s, other) <= Votes(s, text)
  }

  /** The winner `max` picks: of the texts with most votes, the one seen first. */
  ghost predicate IsFirstMajority(s: seq<Sample>, text: string) {
    && IsMajority(s, text)
    && exists i :: 0 <= i < |s| && Text(s[i].row) == text &&
                   forall j | 0 <= j < i :: Votes(s, Text(s[j].row)) < Votes(s, text)
  }

  ghost predicate Tied(s: seq<Sample>) {
    exists a, b :: a != b && IsMajority(s, a) && IsMajority(s, b)
  }

  lemma {:induction false} VotesAppend(a: seq<Sample>, b: seq<Sample>, text: string)
    ensures Votes(a + b, text) == Votes(a, text) + Votes(b, text)
  {
    if a == [] {
      assert a + b == b;
    } else {
      assert (a + b)[1..] == a[1..] + b;
      VotesAppend(a[1..], b, text);
    }
  }

  lemma VotesWithout(s: seq<Sample>, i: nat, text: string)
    requires i < |s|
    ensures Votes(s, text) == Votes([s[i]], text) + Votes(Without(s, i), text)
  {
    assert s == s[..i] + ([s[i]] + s[i + 1..]);
    VotesAppend(s[..i], [s[i]] + s[i + 1..], text);
    VotesAppend([s[i]], s[i + 1..], text);
    VotesAppend(s[..i], s[i + 1..], text);
  }

  lemma {:induction false} VotesIgnoreOrder(a: seq<Sample>, b: seq<Sample>, text: string)
    requires multiset(a) == multiset(b)
    ensures Votes(a, text) == Votes(b, text)
  {
    if a == [] {
      assert |b| == |multiset(b)| == 0;
    } else {
      var i := MatchFirst(a, b);
      VotesWithout(a, 0, text);
      VotesWithout(b, i, text);
      VotesIgnoreOrder(Without(a, 0), Without(b, i), text);
    }
  }

  lemma FirstMajorityUnique(s: seq<Sample>, a: string, b: string)
    requires IsFirstMajority(s, a) && IsFirstMajority(s, b)
    ensures a == b
  {
    assert Votes(s, a) == Votes(s, b);
    var i :| 0 <= i < |s| && Text(s[i].row) == a && forall j | 0 <= j < i :: Votes(s, Text(s[j].row)) < Votes(s, a);
    var k :| 0 <= k < |s| && Text(s[k].row) == b && forall j | 0 <= j < k :: Votes(s, Text(s[j].row)) < Votes(s, b);
  }

  lemma OneVote(x: Sample, text: string)
    ensures IsMajority([x], text) <==> text == Text(x.row)
  {
    assert [x][1..] == [];
    forall v ensures Votes([x], v) == if v == Text(x.row) then 1 else 0 {
      assert Votes([], v) == 0;
    }
  }

  /** In a tie the order of the rows decides, and any of the tied texts can win. */
  lemma TieDecidedByOrder(s: seq<Sample>, text: string) returns (t: seq<Sample>)
    requires IsMajority(s, text)
    ensures multiset(t) == multiset(s) && IsFirstMajority(t, text)
  {
    var i := VoterOf(s, text);
    t := [s[i]] + Without(s, i);
    assert multiset(t) == multiset([s[i]]) + multiset(Without(s, i));
    forall other ensures Votes(t, other) == Votes(s, other) {
      VotesIgnoreOrder(t, s, other);
    }
    assert Text(t[0].row) == text;
  }

  lemma {:induction false} VoterOf(s: seq<Sample>, text: string) returns (i: nat)
    requires Votes(s, text) > 0
    ensures i < |s| && Text(s[i].row) == text
  {
    if Text(s[0].row) == text {
      i := 0;
    } else {
      i := VoterOf(s[1..], text);
      i := i + 1;
    }
  }

  /** The distinct texts in the order they are first seen: a dict's keys after counting. */
  function FirstSeen(s: seq<Sample>): seq<string> {
    if s == [] then [] else
      var before, last := FirstSeen(s[..|s| - 1]), Text(s[|s| - 1].row);
      if last in before then before else before + [last]
  }

  lemma {:induction false} FirstSeenAt(s: seq<Sample>, k: nat) returns (i: nat)
    requires k < |FirstSeen(s)|
    ensures i < |s| && Text(s[i].row) == FirstSeen(s)[k]
    ensures forall j | 0 <= j < i :: Text(s[j].row) in FirstSeen(s)[..k]
  {
    var before := s[..|s| - 1];
    if k < |FirstSeen(before)| {
      i := FirstSeenAt(before, k);
      assert FirstSeen(s)[..k] == FirstSeen(before)[..k];
    } else {
      i := |s| - 1;
      FirstSeenAll(before);
      assert FirstSeen(s)[..k] == FirstSeen(before);
    }
  }

  lemma {:induction false} FirstSeenAll(s: seq<Sample>)
    ensures forall j | 0 <= j < |s| :: Text(s[j].row) in FirstSeen(s)
  {
    if s != [] {
      FirstSeenAll(s[..|s| - 1]);
    }
  }

  /** The counting loop of the vote: a dict from text to count, with its insertion order. */
  method CountVotes(group: seq<Sample>) returns (counts: map<string, nat>, seen: seq<string>)
    ensures forall v :: Votes(group, v) == if v in counts then counts[v] else 0
    ensures seen == FirstSeen(group)
    ensures forall v :: v in seen <==> v in counts
    ensures forall v | v in counts :: counts[v] > 0
  {
    counts, seen := map[], [];
    for i := 0 to |group|
      invariant forall v :: Votes(group[..i], v) == if v in counts then counts[v] else 0
      invariant seen == FirstSeen(group[..i])
      invariant forall v :: v in seen <==> v in counts
      invariant forall v | v in counts :: counts[v] > 0
    {
      var key := Text(group[i].row);
      assert group[..i + 1] == group[..i] + [group[i]];
      forall v ensures Votes(group[..i + 1], v) == Votes(group[..i], v) + if v == key then 1 else 0 {
        VotesAppend(group[..i], [group[i]], v);
      }
      assert group[..i + 1][..i] == group[..i];
      if key !in counts {
        seen := seen + [key];
      }
      counts := counts[key := (if key in counts then counts[key] else 0) + 1];
    }
    assert group[..|group|] == group;
  }

  /** `max(counts, key=...)`: the earliest key with the largest count. */
  method FirstWithMost(counts: map<string, nat>, seen: seq<string>) returns (best: nat)
    requires seen != [] && forall v | v in seen :: v in counts
    ensures best < |seen|
    ensures forall k | 0 <= k < |seen| :: counts[seen[k]] <= counts[seen[best]]
    ensures forall k | 0 <= k < best :: counts[seen[k]] < counts[seen[best]]
  {
    best := 0;
    for i := 1 to |seen|
      invariant best < i
      invariant forall k | 0 <= k < i :: counts[seen[k]] <= counts[seen[best]]
      invariant forall k | 0 <= k < best :: counts[seen[k]] < counts[seen[best]]
    {
      if counts[seen[i]] > counts[seen[best]] {
        best := i;
      }
    }
  }

  lemma FirstMaximalIsFirstMajority(s: seq<Sample>, best: nat)
    requires best < |FirstSeen(s)|
    requires forall v :: Votes(s, v) <= Votes(s, FirstSeen(s)[best])
    requires forall k | 0 <= k < best :: Votes(s, FirstSeen(s)[k]) < Votes(s, FirstSeen(s)[best])
    requires Votes(s, FirstSeen(s)[best]) > 0
    ensures IsFirstMajority(s, FirstSeen(s)[best])
  {
    var i := FirstSeenAt(s, best);
  }

  method MajorityOf(group: seq<Sample>) returns (text: string)
    requires group != []
    ensures IsFirstMajority(group, text)
  {
    var counts, seen := CountVotes(group);
    FirstSeenAll(group);
    assert Text(group[0].row) in seen;
    var best := FirstWithMost(counts, seen);
    text := seen[best];
    forall v ensures Votes(group, v) <= Votes(group, text) {
      if v in counts {
        var k :| 0 <= k < |seen| && seen[k] == v;
      }
    }
    FirstMaximalIsFirstMajority(group, best);
  }

  ghost predicate Winners(tbl: seq<Sample>, pgcs: seq<Pgc>, values: seq<string>) {
    |values| == |pgcs| && forall g | 0 <= g < |pgcs| :: IsFirstMajority(Select(tbl, pgcs[g]), values[g])
  }

  lemma WinnersNone(tbl: seq<Sample>)
    ensures Winners(tbl, [], [])
  {}

  lemma WinnersAppend(tbl: seq<Sample>, pgcs: seq<Pgc>, values: seq<string>, p: Pgc, text: string)
    requires Winners(tbl, pgcs, values) && IsFirstMajority(Select(tbl, p), text)
    ensures Winners(tbl, pgcs + [p], values + [text])
  {}

  method MajorityVoteByPgc(tbl: seq<Sample>) returns (pgcs: seq<Pgc>, values: seq<string>)
    ensures pgcs == Ascending(PgcsOf(tbl))
    ensures Winners(tbl, pgcs, values)
  {
    hide Winners, IsFirstMajority, Select, PgcsOf;
    var groups := Ascending(PgcsOf(tbl));
    pgcs, values := [], [];
    WinnersNone(tbl);
    for g := 0 to |groups|
      invariant pgcs == groups[..g]
      invariant Winners(tbl, pgcs, values)
    {
      SelectNonEmpty(tbl, groups[g]);
      var text := MajorityOf(Select(tbl, groups[g]));
      WinnersAppend(tbl, pgcs, values, groups[g], text);
      pgcs, values := pgcs + [groups[g]], values + [text];
    }
  }

  // ---- One catalog's aggregate ----

  /** `y` may be stored for a PGC whose layer-1 rows, in the order they were read, are `s`. */
  ghost predicate IsSummary(c: Catalog, s: seq<Sample>, y: Summary) {
    s != [] &&
    match c
    case Icrs =>
      var kept := ExcludeCompilationsWithPrimary(s);
      y == Position(WeightedMean(kept, RaPart), WeightedMean(kept, DecPart))
    case Redshift =>
      y == Velocity(WeightedMean(ExcludeCompilationsWithPrimary(s), CzPart))
    case _ => y.Voted? && IsMajority(s, y.text)
  }

  lemma {:induction false} ExcludeCounts(s: seq<Sample>, primary: set<Pgc>, x: Sample)
    ensures multiset(Exclude(s, primary))[x] == if x.compilation && x.pgc in primary then 0 else multiset(s)[x]
  {
    if s != [] {
      ExcludeCounts(s[1..], primary, x);
      assert s == [s[0]] + s[1..];
    }
  }

  lemma MaskIgnoresOrder(a: seq<Sample>, b: seq<Sample>)
    requires multiset(a) == multiset(b)
    ensures multiset(ExcludeCompilationsWithPrimary(a)) == multiset(ExcludeCompilationsWithPrimary(b))
  {
    assert forall x :: x in a <==> x in multiset(a);
    assert forall x :: x in b <==> x in multiset(b);
    assert PrimaryPgcs(a) == PrimaryPgcs(b);
    var kept, keptB := ExcludeCompilationsWithPrimary(a), ExcludeCompilationsWithPrimary(b);
    forall x ensures multiset(kept)[x] == multiset(keptB)[x] {
      ExcludeCounts(a, PrimaryPgcs(a), x);
      ExcludeCounts(b, PrimaryPgcs(b), x);
    }
  }

  /** What may be stored does not depend on the order the database returns a PGC's rows in. */
  lemma SummaryIgnoresOrder(c: Catalog, a: seq<Sample>, b: seq<Sample>, y: Summary)
    requires multiset(a) == multiset(b)
    ensures IsSummary(c, a, y) <==> IsSummary(c, b, y)
  {
    assert |multiset(a)| == |a| && |multiset(b)| == |b|;
    var keptA, keptB := ExcludeCompilationsWithPrimary(a), ExcludeCompilationsWithPrimary(b);
    MaskIgnoresOrder(a, b);
    forall part ensures WeightedMean(keptA, part) == WeightedMean(keptB, part) {
      MeanIgnoresOrder(keptA, keptB, part);
    }
    forall text ensures Votes(a, text) == Votes(b, text) {
      VotesIgnoreOrder(a, b, text);
    }
  }

  /** The stored row is determined by the layer-1 rows exactly if the catalog is averaged or the vote is not tied. */
  lemma SummaryDetermined(c: Catalog, s: seq<Sample>)
    ensures (forall y, z | IsSummary(c, s, y) && IsSummary(c, s, z) :: y == z) <==>
            (Measured(c) || s == [] || !Tied(s))
  {
    if !Measured(c) && s != [] && Tied(s) {
      var a, b :| a != b && IsMajority(s, a) && IsMajority(s, b);
      assert IsSummary(c, s, Voted(a)) && IsSummary(c, s, Voted(b));
    }
  }

  datatype Saved = Saved(pgc: Pgc, summary: Summary)

  /** One row per PGC of the batch, in increasing order, each a summary of that PGC's own rows. */
  ghost predicate IsAggregate(c: Catalog, tbl: seq<Sample>, agg: seq<Saved>) {
    && |agg| == |Ascending(PgcsOf(tbl))|
    && forall i | 0 <= i < |agg| ::
         agg[i].pgc == Ascending(PgcsOf(tbl))[i] && IsSummary(c, Select(tbl, agg[i].pgc), agg[i].summary)
  }

  function AggregateIcrs(tbl: seq<Sample>): (agg: seq<Saved>) {
    var work := ExcludeCompilationsWithPrimary(tbl);
    var keys := Ascending(PgcsOf(work));
    seq(|keys|, i requires 0 <= i < |keys| =>
      var group := Select(work, keys[i]);
      Saved(keys[i], Position(WeightedMean(group, RaPart), WeightedMean(group, DecPart))))
  }

  function AggregateRedshift(tbl: seq<Sample>): (agg: seq<Saved>) {
    var work := ExcludeCompilationsWithPrimary(tbl);
    var keys := Ascending(PgcsOf(work));
    seq(|keys|, i requires 0 <= i < |keys| =>
      Saved(keys[i], Velocity(WeightedMean(Select(work, keys[i]), CzPart))))
  }

  /** Averaging a whole batch averages each PGC's rows on their own. */
  lemma BatchIsPerPgc(tbl: seq<Sample>)
    ensures IsAggregate(Icrs, tbl, AggregateIcrs(tbl))
    ensures IsAggregate(Redshift, tbl, AggregateRedshift(tbl))
  {
    MaskKeepsEveryPgc(tbl);
    var keys := Ascending(PgcsOf(tbl));
    forall i | 0 <= i < |keys|
      ensures IsSummary(Icrs, Select(tbl, keys[i]), AggregateIcrs(tbl)[i].summary)
      ensures IsSummary(Redshift, Select(tbl, keys[i]), AggregateRedshift(tbl)[i].summary)
    {
      MaskIsPerPgc(tbl, keys[i]);
      SelectNonEmpty(tbl, keys[i]);
    }
  }

  method Aggregate(c: Catalog, tbl: seq<Sample>) returns (agg: seq<Saved>)
    ensures IsAggregate(c, tbl, agg)
  {
    match c
    case Icrs =>
      agg := AggregateIcrs(tbl);
      BatchIsPerPgc(tbl);
    case Redshift =>
      agg := AggregateRedshift(tbl);
      BatchIsPerPgc(tbl);
    case _ =>
      var pgcs, values := MajorityVoteByPgc(tbl);
      agg := seq(|pgcs|, i requires 0 <= i < |pgcs| => Saved(pgcs[i], Voted(values[i])));
      forall i | 0 <= i < |pgcs| ensures Select(tbl, pgcs[i]) != [] {
        SelectNonEmpty(tbl, pgcs[i]);
      }
  }
}

/** Weighted product scores (src/domain/product-scoring.ts), over exact reals. */
module ProductScoring {

  datatype Option<T> = None | Some(value: T)

  datatype Components = Components(margin: real, targetFit: real, shipping: real, designFit: real, variety: real, returnSafety: real)

  predicate InRange(v: real) { 0.0 <= v <= 100.0 }

  predicate Valid(c: Components) {
    InRange(c.margin) && InRange(c.targetFit) && InRange(c.shipping) && InRange(c.designFit) && InRange(c.variety) && InRange(c.returnSafety)
  }

  function Weighted(c: Components): real {
    c.margin * 0.3 + c.targetFit * 0.25 + c.shipping * 0.15 + c.designFit * 0.15 + c.variety * 0.1 + c.returnSafety * 0.05
  }

  function Round(x: real): int { (x + 0.5).Floor }

  /** The total, to two places; nothing where the source throws. */
  function ScoreProduct(c: Components): Option<real> {
    if !Valid(c) then None else Some(ToCents(Weighted(c)))
  }

  predicate AtMost(c: Components, d: Components) {
    && c.margin <= d.margin && c.targetFit <= d.targetFit && c.shipping <= d.shipping
    && c.designFit <= d.designFit && c.variety <= d.variety && c.returnSafety <= d.returnSafety
  }

  function All(v: real): Components { Components(v, v, v, v, v, v) }

  lemma WeightedIsMonotone(c: Components, d: Components)
    requires AtMost(c, d)
    ensures Weighted(c) <= Weighted(d)
  {
  }

  /** The weights add up to one. */
  lemma WeightedOfAll(v: real)
    ensures Weighted(All(v)) == v
  {
  }

  function ToCents(x: real): real { Round(x * 100.0) as real / 100.0 }

  lemma ToCentsMonotone(x: real, y: real)
    requires x <= y
    ensures ToCents(x) <= ToCents(y)
  {
    assert Round(x * 100.0) <= Round(y * 100.0);
  }

  lemma ToCentsOfWhole(n: nat)
    ensures ToCents(n as real) == n as real
  {
    assert n as real * 100.0 == (n * 100) as real;
    assert ((n * 100) as real + 0.5).Floor == n * 100;
  }

  lemma ToCentsIsNear(x: real)
    ensures x - 0.005 <= ToCents(x) <= x + 0.005
  {
    var cents := x * 100.0;
    assert Round(cents) as real <= cents + 0.5 && cents - 0.5 < Round(cents) as real;
  }

  /** A total lies between the least and the greatest component, each rounded to cents like the total; so it is
      less than a cent outside them, and between 0 and 100. */
  lemma TotalBetween(c: Components, low: real, high: real)
    requires Valid(c) && AtMost(All(low), c) && AtMost(c, All(high))
    ensures ScoreProduct(c).Some?
    ensures var total := ScoreProduct(c).value;
            ToCents(low) <= total <= ToCents(high) && low - 0.005 <= total <= high + 0.005 && 0.0 <= total <= 100.0
  {
    AboveLow(c, low);
    AboveLow(c, 0.0);
    BelowHigh(c, high);
    BelowHigh(c, 100.0);
    ToCentsOfWhole(0);
    ToCentsOfWhole(100);
    ToCentsIsNear(low);
    ToCentsIsNear(high);
    hide Weighted, ToCents;
  }

  lemma AboveLow(c: Components, low: real)
    requires AtMost(All(low), c)
    ensures ToCents(low) <= ToCents(Weighted(c))
  {
    WeightedIsMonotone(All(low), c);
    WeightedOfAll(low);
    ToCentsMonotone(low, Weighted(c));
    hide Weighted, ToCents;
  }

  lemma BelowHigh(c: Components, high: real)
    requires AtMost(c, All(high))
    ensures ToCents(Weighted(c)) <= ToCents(high)
  {
    WeightedIsMonotone(c, All(high));
    WeightedOfAll(high);
    ToCentsMonotone(Weighted(c), high);
    hide Weighted, ToCents;
  }

  /** Raising components never lowers the total. */
  lemma TotalIsMonotone(c: Components, d: Components)
    requires Valid(c) && Valid(d) && AtMost(c, d)
    ensures ScoreProduct(c).value <= ScoreProduct(d).value
  {
    WeightedIsMonotone(c, d);
    ToCentsMonotone(Weighted(c), Weighted(d));
    hide Weighted, ToCents;
  }

  /** From basis points to a score; nothing below the floor of 3000. */
  function MarginScore(rate: real): Option<real> {
    if rate < 0.3 then None
    else if rate >= 0.6 then Some(100.0)
    else if rate >= 0.5 then Some(85.0)
    else if rate >= 0.4 then Some(65.0)
    else Some(35.0)
  }

  lemma MarginScoreFloor(basisPoints: int)
    ensures MarginScore(basisPoints as real / 10000.0).None? <==> basisPoints < 3000
    ensures MarginScore(basisPoints as real / 10000.0).Some? ==> InRange(MarginScore(basisPoints as real / 10000.0).value)
  {
  }

  lemma MarginScoreIsMonotone(a: real, b: real)
    requires MarginScore(a).Some? && a <= b
    ensures MarginScore(b).Some? && MarginScore(a).value <= MarginScore(b).value
  {
  }

  /** Thirty parts margin, twenty-five target fit, fifteen shipping, fifteen design, ten variety and five return safety of
      a hundred, to the nearest cent, half a cent up; refused exactly when a component lies outside 0 to 100. */
  lemma TotalExactly(c: Components, cents: int)
    ensures ScoreProduct(c) == Some(cents as real / 100.0) <==>
              && (forall v :: v in [c.margin, c.targetFit, c.shipping, c.designFit, c.variety, c.returnSafety] ==> 0.0 <= v <= 100.0)
              && cents as real - 0.5
                 <= 30.0 * c.margin + 25.0 * c.targetFit + 15.0 * c.shipping + 15.0 * c.designFit + 10.0 * c.variety + 5.0 * c.returnSafety
                 < cents as real + 0.5
  {
    var all := [c.margin, c.targetFit, c.shipping, c.designFit, c.variety, c.returnSafety];
    assert all[0] in all && all[1] in all && all[2] in all && all[3] in all && all[4] in all && all[5] in all;
    var points := 30.0 * c.margin + 25.0 * c.targetFit + 15.0 * c.shipping + 15.0 * c.designFit + 10.0 * c.variety + 5.0 * c.returnSafety;
    assert Weighted(c) * 100.0 == points;
    assert ToCents(Weighted(c)) == cents as real / 100.0 <==> Round(points) == cents;
    assert Round(points) == cents <==> cents as real - 0.5 <= points < cents as real + 0.5;
  }

  /** Each of the four steps from the floor of 3000 basis points on. */
  lemma MarginScoreSteps(basisPoints: int)
    ensures MarginScore(basisPoints as real / 10000.0)
         == if basisPoints < 3000 then None else if basisPoints < 4000 then Some(35.0)
            else if basisPoints < 5000 then Some(65.0) else if basisPoints < 6000 then Some(85.0) else Some(100.0)
  {
  }
}

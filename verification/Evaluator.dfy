/**
 Catalogue evaluation (src/candidates/evaluator.ts:22-141): price choice, exclusion reasons, score. Rates
 and amounts are exact reals. Texts are those the source compares: trimmed, lower-cased product types and
 upper-cased country and currency codes.
 */
module Evaluator {
  import opened ProductScoring

  datatype PriceRange = PriceRange(productType: string, minMinor: Option<real>, maxMinor: Option<real>)

  datatype Profile = Profile(targetMarkets: seq<string>, currency: string, targetMargin: real, ranges: seq<PriceRange>,
                             preferred: seq<string>, excluded: seq<string>)

  datatype ReturnRisk = Low | Medium | High

  datatype Product = Product(productType: string, currency: string, baseCostMinor: real, shippingReserveMinor: real,
                             shippingCountries: set<string>, stockByMarket: Option<map<string, int>>,
                             placements: seq<string>, sizes: set<string>, colors: set<string>, returnRisk: ReturnRisk)

  datatype Reason = CurrencyMismatch | ProductTypeExcluded | PriceRangeMissing | UnsupportedTargetMarket | OutOfStockTargetMarket
                  | DesignPlacementMissing | InvalidVariableCost | InvalidPriceRange | TargetMarginUnachievable | MarginBelowFloor

  datatype Evaluation =
    | Excluded(reasons: seq<Reason>)
    | Eligible(score: real, components: Components, retailMinor: int, marginBasisPoints: int)

  predicate IsInteger(x: real) { x.Floor as real == x }

  function Ceil(x: real): int { -((-x).Floor) }

  function MaxInt(a: int, b: int): int { if a < b then b else a }

  // ---- the parts of the evaluation ----

  function VariableCost(p: Product): real { p.baseCostMinor + p.shippingReserveMinor }

  function FindRange(ranges: seq<PriceRange>, productType: string): Option<PriceRange> {
    if ranges == [] then None
    else if ranges[0].productType == productType then Some(ranges[0])
    else FindRange(ranges[1..], productType)
  }

  predicate Unsupported(profile: Profile, p: Product) { exists c :: c in profile.targetMarkets && c !in p.shippingCountries }

  predicate OutOfStock(profile: Profile, p: Product) {
    p.stockByMarket.Some?
    && exists c :: c in profile.targetMarkets && (c !in p.stockByMarket.value || p.stockByMarket.value[c] == 0)
  }

  function When(condition: bool, reason: Reason): seq<Reason> { if condition then [reason] else [] }

  /** The reasons found before any price is looked at, in order. */
  function EarlyReasons(profile: Profile, p: Product): seq<Reason> {
    When(p.currency != profile.currency, CurrencyMismatch)
    + When(p.productType in profile.excluded, ProductTypeExcluded)
    + When(FindRange(profile.ranges, p.productType).None?, PriceRangeMissing)
    + When(Unsupported(profile, p), UnsupportedTargetMarket)
    + When(OutOfStock(profile, p), OutOfStockTargetMarket)
    + When(p.placements == [], DesignPlacementMissing)
    + When(!IsInteger(VariableCost(p)) || VariableCost(p) <= 0.0, InvalidVariableCost)
  }

  predicate ValidRange(r: PriceRange) {
    && r.minMinor.Some? && r.maxMinor.Some? && IsInteger(r.minMinor.value) && IsInteger(r.maxMinor.value)
    && 0.0 <= r.minMinor.value <= r.maxMinor.value
  }

  /** What is left of the price after the cost, in ten-thousandths of the price. */
  function Share(price: int, cost: real): (share: real)
    requires price > 0
    ensures share * price as real == (price as real - cost) * 10000.0
  {
    (price as real - cost) * 10000.0 / price as real
  }

  function BasisPoints(price: int, cost: real): int
    requires price > 0
  {
    Share(price, cost).Floor
  }

  datatype Price = Unachievable | Chosen(minor: int)

  /** The least allowed price, raised to what the target margin needs. */
  function ChoosePrice(min: int, max: int, cost: real, targetMargin: real): Price {
    if targetMargin >= 1.0 then Unachievable
    else
      var price := MaxInt(min, Ceil(cost / (1.0 - targetMargin)));
      if price > max then Unachievable else Chosen(price)
  }

  // ---- the price rule ----

  /** At this price the share of revenue left after the cost reaches the target. */
  predicate MeetsTarget(price: int, cost: real, targetMargin: real) {
    price > 0 && price as real - cost >= targetMargin * price as real
  }

  lemma CeilBounds(x: real, n: int)
    ensures Ceil(x) <= n <==> x <= n as real
  {
  }

  lemma DivideBounds(cost: real, d: real, price: real)
    requires d > 0.0
    ensures cost / d <= price <==> cost <= price * d
  {
    var q := cost / d;
    assert q * d == cost;
    Ordered(q, price, d);
  }

  lemma Ordered(a: real, b: real, d: real)
    requires d > 0.0
    ensures a <= b <==> a * d <= b * d
  {
    if a <= b { Nonnegative(b - a, d); } else { Positive(a - b, d, (a - b) * d); }
    assert (b - a) * d == b * d - a * d && (a - b) * d == a * d - b * d;
  }

  lemma Nonnegative(a: real, b: real)
    requires a >= 0.0 && b >= 0.0
    ensures a * b >= 0.0
  {
  }

  lemma Positive(a: real, b: real, w: real)
    requires a > 0.0 && b > 0.0 && w == a * b
    ensures w > 0.0
  {
  }

  /** A price meets the target exactly when it is at least the computed one. */
  lemma MeetsFrom(price: int, cost: real, targetMargin: real)
    requires cost > 0.0 && targetMargin < 1.0
    ensures MeetsTarget(price, cost, targetMargin) <==> Ceil(cost / (1.0 - targetMargin)) <= price
  {
    var d := 1.0 - targetMargin;
    CeilBounds(cost / d, price);
    DivideBounds(cost, d, price as real);
    DivideBounds(cost, d, 0.0);
    assert price as real * d == price as real - targetMargin * price as real;
    if price <= 0 { Nonnegative(-(price as real), d); assert (-(price as real)) * d == -(price as real * d); }
  }

  lemma NeverMeets(price: int, cost: real, targetMargin: real)
    requires cost > 0.0 && targetMargin >= 1.0
    ensures !MeetsTarget(price, cost, targetMargin)
  {
    if price > 0 {
      Nonnegative(targetMargin - 1.0, price as real);
      assert (targetMargin - 1.0) * price as real == targetMargin * price as real - price as real;
    }
  }

  /**
   The chosen price is the least whole number in the range that meets the target margin, and the margin
   is unachievable exactly when no whole number in the range meets it.
   */
  lemma PriceIsLeast(min: int, max: int, cost: real, targetMargin: real)
    requires cost > 0.0
    ensures var choice := ChoosePrice(min, max, cost, targetMargin);
            && (choice.Unachievable? <==> forall q :: min <= q <= max ==> !MeetsTarget(q, cost, targetMargin))
            && (choice.Chosen? ==>
                  && min <= choice.minor <= max && MeetsTarget(choice.minor, cost, targetMargin)
                  && forall q :: min <= q < choice.minor ==> !MeetsTarget(q, cost, targetMargin))
  {
    var choice := ChoosePrice(min, max, cost, targetMargin);
    forall q ensures MeetsTarget(q, cost, targetMargin) <==> targetMargin < 1.0 && Ceil(cost / (1.0 - targetMargin)) <= q {
      if targetMargin < 1.0 { MeetsFrom(q, cost, targetMargin); } else { NeverMeets(q, cost, targetMargin); }
    }
    hide MeetsTarget;
    if targetMargin < 1.0 {
      var price := MaxInt(min, Ceil(cost / (1.0 - targetMargin)));
      assert MeetsTarget(price, cost, targetMargin);
    }
  }

  lemma ChosenIsPositive(min: int, max: int, cost: real, targetMargin: real)
    requires cost > 0.0 && ChoosePrice(min, max, cost, targetMargin).Chosen?
    ensures ChoosePrice(min, max, cost, targetMargin).minor > 0
  {
    PriceIsLeast(min, max, cost, targetMargin);
  }

  // ---- the evaluation ----

  function Variety(p: Product): real {
    var points := (|p.sizes| * 10 + |p.colors| * 10) as real;
    if points < 100.0 then points else 100.0
  }

  function ReturnSafety(risk: ReturnRisk): real {
    match risk
    case Low => 90.0
    case Medium => 60.0
    case High => 30.0
  }

  function ScoreComponents(profile: Profile, p: Product, marginScore: real): Components {
    Components(marginScore, if p.productType in profile.preferred then 100.0 else 40.0, 100.0,
               if "front" in p.placements then 100.0 else 75.0, Variety(p), ReturnSafety(p.returnRisk))
  }

  /** What the price rule says about a product with no early reason. */
  function PriceReason(range: PriceRange, cost: real, targetMargin: real): (Option<Reason>, int, int)
    requires cost > 0.0
  {
    if !ValidRange(range) then (Some(InvalidPriceRange), 0, 0)
    else
      var min, max := range.minMinor.value.Floor, range.maxMinor.value.Floor;
      match ChoosePrice(min, max, cost, targetMargin)
      case Unachievable => (Some(TargetMarginUnachievable), 0, 0)
      case Chosen(price) =>
        ChosenIsPositive(min, max, cost, targetMargin);
        var points := BasisPoints(price, cost);
        (if MarginScore(points as real / 10000.0).None? then Some(MarginBelowFloor) else None, price, points)
  }

  /** The evaluation as a whole. */
  function EvaluationOf(profile: Profile, p: Product): Evaluation {
    var early := EarlyReasons(profile, p);
    if early != [] then Excluded(early)
    else
      var range := FindRange(profile.ranges, p.productType);
      EarlyMeans(profile, p);
      var (reason, price, points) := PriceReason(range.value, VariableCost(p), profile.targetMargin);
      if reason.Some? then Excluded([reason.value])
      else
        var components := ScoreComponents(profile, p, MarginScore(points as real / 10000.0).value);
        ComponentsInRange(profile, p, points);
        TotalBetween(components, 0.0, 100.0);
        Eligible(ScoreProduct(components).value, components, price, points)
  }

  lemma EarlyMeans(profile: Profile, p: Product)
    ensures EarlyReasons(profile, p) == [] <==>
              && p.currency == profile.currency && p.productType !in profile.excluded
              && FindRange(profile.ranges, p.productType).Some? && !Unsupported(profile, p) && !OutOfStock(profile, p)
              && p.placements != [] && IsInteger(VariableCost(p)) && VariableCost(p) > 0.0
  {
  }

  lemma ComponentsInRange(profile: Profile, p: Product, points: int)
    requires MarginScore(points as real / 10000.0).Some?
    ensures var c := ScoreComponents(profile, p, MarginScore(points as real / 10000.0).value);
            Valid(c) && AtMost(All(0.0), c) && AtMost(c, All(100.0))
  {
  }

  /** `if (condition) exclusionReasons.push(reason)` */
  method PushWhen(reasons: seq<Reason>, condition: bool, reason: Reason) returns (r: seq<Reason>)
    ensures r == reasons + When(condition, reason)
  {
    r := reasons;
    if condition { r := r + [reason]; }
  }

  method CollectReasons(profile: Profile, p: Product, range: Option<PriceRange>, cost: real) returns (reasons: seq<Reason>)
    requires range == FindRange(profile.ranges, p.productType) && cost == VariableCost(p)
    ensures reasons == EarlyReasons(profile, p)
  {
    hide Unsupported, OutOfStock, FindRange, VariableCost, When, IsInteger;
    reasons := PushWhen([], p.currency != profile.currency, CurrencyMismatch);
    assert reasons == When(p.currency != profile.currency, CurrencyMismatch);
    reasons := PushWhen(reasons, p.productType in profile.excluded, ProductTypeExcluded);
    reasons := PushWhen(reasons, range.None?, PriceRangeMissing);
    reasons := PushWhen(reasons, Unsupported(profile, p), UnsupportedTargetMarket);
    reasons := PushWhen(reasons, OutOfStock(profile, p), OutOfStockTargetMarket);
    reasons := PushWhen(reasons, p.placements == [], DesignPlacementMissing);
    reasons := PushWhen(reasons, !IsInteger(cost) || cost <= 0.0, InvalidVariableCost);
  }

  /** The whole evaluation, in the source's order: reasons, then the price, then the score. */
  method EvaluateCatalogProduct(profile: Profile, p: Product) returns (e: Evaluation)
    ensures e == EvaluationOf(profile, p)
  {
    hide BasisPoints, ChoosePrice, ScoreComponents, FindRange, MarginScore, ScoreProduct, EarlyReasons, ValidRange;
    var range := FindRange(profile.ranges, p.productType);
    var cost := VariableCost(p);
    var reasons := CollectReasons(profile, p, range, cost);
    if reasons != [] { return Excluded(reasons); }
    EarlyMeans(profile, p);
    hide VariableCost, IsInteger;
    if !ValidRange(range.value) { return Excluded([InvalidPriceRange]); }
    RangeIsGiven(range.value);
    var min, max := range.value.minMinor.value.Floor, range.value.maxMinor.value.Floor;
    var choice := ChoosePrice(min, max, cost, profile.targetMargin);
    if choice.Unachievable? { return Excluded([TargetMarginUnachievable]); }
    ChosenIsPositive(min, max, cost, profile.targetMargin);
    var points := BasisPoints(choice.minor, cost);
    var score := MarginScore(points as real / 10000.0);
    if score.None? { return Excluded([MarginBelowFloor]); }
    var components := ScoreComponents(profile, p, score.value);
    ComponentsInRange(profile, p, points);
    TotalBetween(components, 0.0, 100.0);
    return Eligible(ScoreProduct(components).value, components, choice.minor, points);
  }

  lemma RangeIsGiven(r: PriceRange)
    requires ValidRange(r)
    ensures r.minMinor.Some? && r.maxMinor.Some?
  {
  }

  // ---- what an evaluation promises ----

  /** The range that applies to the product, in whole minor units. */
  predicate InPriceRange(profile: Profile, p: Product, price: int) {
    var range := FindRange(profile.ranges, p.productType);
    range.Some? && ValidRange(range.value) && range.value.minMinor.value <= price as real <= range.value.maxMinor.value
  }

  predicate Priceable(profile: Profile, p: Product) {
    EarlyReasons(profile, p) == [] && ValidRange(FindRange(profile.ranges, p.productType).value)
  }

  lemma RangeBounds(r: PriceRange, price: int)
    requires ValidRange(r)
    ensures r.minMinor.value <= price as real <= r.maxMinor.value <==> r.minMinor.value.Floor <= price <= r.maxMinor.value.Floor
  {
  }

  /** Every eligible product is priced at the least price that meets its target, and scored 0 to 100. */
  lemma EligibleProduct(profile: Profile, p: Product)
    requires EvaluationOf(profile, p).Eligible?
    ensures var e := EvaluationOf(profile, p);
            && EarlyReasons(profile, p) == []
            && InPriceRange(profile, p, e.retailMinor) && MeetsTarget(e.retailMinor, VariableCost(p), profile.targetMargin)
            && (forall q :: q < e.retailMinor && InPriceRange(profile, p, q) ==> !MeetsTarget(q, VariableCost(p), profile.targetMargin))
            && e.marginBasisPoints >= 3000 && e.marginBasisPoints == BasisPoints(e.retailMinor, VariableCost(p))
            && ScoreProduct(e.components) == Some(e.score) && 0.0 <= e.score <= 100.0
  {
    EarlyMeans(profile, p);
    var e := EvaluationOf(profile, p);
    var r := FindRange(profile.ranges, p.productType).value;
    var min, max := r.minMinor.value.Floor, r.maxMinor.value.Floor;
    PriceIsLeast(min, max, VariableCost(p), profile.targetMargin);
    MarginScoreFloor(e.marginBasisPoints);
    ComponentsInRange(profile, p, e.marginBasisPoints);
    TotalBetween(e.components, 0.0, 100.0);
    hide EarlyReasons, ChoosePrice, BasisPoints, MeetsTarget, ScoreProduct, ScoreComponents, FindRange;
    forall q ensures InPriceRange(profile, p, q) <==> min <= q <= max { RangeBounds(r, q); }
  }

  /** TARGET_MARGIN_UNACHIEVABLE is reported exactly when no price in a valid range meets the target. */
  lemma UnachievableExactly(profile: Profile, p: Product)
    requires Priceable(profile, p)
    ensures EvaluationOf(profile, p) == Excluded([TargetMarginUnachievable])
       <==> forall q :: InPriceRange(profile, p, q) ==> !MeetsTarget(q, VariableCost(p), profile.targetMargin)
  {
    EarlyMeans(profile, p);
    var r := FindRange(profile.ranges, p.productType).value;
    var min, max := r.minMinor.value.Floor, r.maxMinor.value.Floor;
    PriceIsLeast(min, max, VariableCost(p), profile.targetMargin);
    hide EarlyReasons, ChoosePrice, BasisPoints, MeetsTarget, ScoreProduct, ScoreComponents, FindRange;
    forall q ensures InPriceRange(profile, p, q) <==> min <= q <= max { RangeBounds(r, q); }
  }

  /** A product with a valid range and no early reason is eligible exactly when the least price meeting its
      target reaches 3000 basis points. */
  lemma EligibleExactly(profile: Profile, p: Product)
    requires Priceable(profile, p)
    ensures EvaluationOf(profile, p).Eligible? <==>
              exists q :: InPriceRange(profile, p, q) && LeastMeeting(profile, p, q) && BasisPoints(q, VariableCost(p)) >= 3000
    ensures EvaluationOf(profile, p) == Excluded([MarginBelowFloor]) <==>
              exists q :: InPriceRange(profile, p, q) && LeastMeeting(profile, p, q) && BasisPoints(q, VariableCost(p)) < 3000
  {
    EarlyMeans(profile, p);
    var r := FindRange(profile.ranges, p.productType).value;
    var min, max := r.minMinor.value.Floor, r.maxMinor.value.Floor;
    var cost := VariableCost(p);
    PriceIsLeast(min, max, cost, profile.targetMargin);
    forall q ensures InPriceRange(profile, p, q) <==> min <= q <= max { RangeBounds(r, q); }
    var choice := ChoosePrice(min, max, cost, profile.targetMargin);
    hide EarlyReasons, ChoosePrice, MeetsTarget, ScoreProduct, ScoreComponents, FindRange, InPriceRange;
    if choice.Chosen? {
      ChosenIsPositive(min, max, cost, profile.targetMargin);
      MarginScoreFloor(BasisPoints(choice.minor, cost));
      hide BasisPoints;
      assert LeastMeeting(profile, p, choice.minor);
    }
  }

  /** When each reason for exclusion holds, in terms of the product and the profile alone. */
  ghost predicate Applies(r: Reason, profile: Profile, p: Product) {
    match r
    case CurrencyMismatch => p.currency != profile.currency
    case ProductTypeExcluded => p.productType in profile.excluded
    case PriceRangeMissing => forall range :: range in profile.ranges ==> range.productType != p.productType
    case UnsupportedTargetMarket => exists c :: c in profile.targetMarkets && c !in p.shippingCountries
    case OutOfStockTargetMarket =>
      p.stockByMarket.Some? && exists c :: c in profile.targetMarkets && (c !in p.stockByMarket.value || p.stockByMarket.value[c] == 0)
    case DesignPlacementMissing => p.placements == []
    case InvalidVariableCost =>
      var cost := p.baseCostMinor + p.shippingReserveMinor;
      cost.Floor as real != cost || cost <= 0.0
    case InvalidPriceRange => EarlyReasons(profile, p) == [] && !ValidRange(FindRange(profile.ranges, p.productType).value)
    case TargetMarginUnachievable =>
      Priceable(profile, p) && forall q :: InPriceRange(profile, p, q) ==> !MeetsTarget(q, VariableCost(p), profile.targetMargin)
    case MarginBelowFloor =>
      Priceable(profile, p)
      && exists q :: InPriceRange(profile, p, q) && LeastMeeting(profile, p, q) && BasisPoints(q, VariableCost(p)) < 3000
  }

  predicate IsEarly(r: Reason) { !r.InvalidPriceRange? && !r.TargetMarginUnachievable? && !r.MarginBelowFloor? }

  lemma {:induction false} RangeMissing(ranges: seq<PriceRange>, productType: string)
    ensures FindRange(ranges, productType).None? <==> forall range :: range in ranges ==> range.productType != productType
  {
    if ranges != [] {
      RangeMissing(ranges[1..], productType);
      assert ranges[0] in ranges && forall range :: range in ranges ==> range == ranges[0] || range in ranges[1..];
    }
  }

  lemma GivenWhen(r: Reason, condition: bool, reason: Reason)
    ensures r in When(condition, reason) <==> condition && r == reason
  {
  }

  lemma EarlyReasonGiven(profile: Profile, p: Product, r: Reason)
    ensures r in EarlyReasons(profile, p) <==> IsEarly(r) && Applies(r, profile, p)
  {
    RangeMissing(profile.ranges, p.productType);
    GivenWhen(r, p.currency != profile.currency, CurrencyMismatch);
    GivenWhen(r, p.productType in profile.excluded, ProductTypeExcluded);
    GivenWhen(r, FindRange(profile.ranges, p.productType).None?, PriceRangeMissing);
    GivenWhen(r, Unsupported(profile, p), UnsupportedTargetMarket);
    GivenWhen(r, OutOfStock(profile, p), OutOfStockTargetMarket);
    GivenWhen(r, p.placements == [], DesignPlacementMissing);
    GivenWhen(r, !IsInteger(VariableCost(p)) || VariableCost(p) <= 0.0, InvalidVariableCost);
    hide When, FindRange, Priceable;
  }

  /** A product is excluded for a reason exactly when the reason applies: all early reasons that do, or the one
      way in which its price fails. */
  lemma ExcludedExactly(profile: Profile, p: Product, r: Reason)
    ensures EvaluationOf(profile, p).Excluded? && r in EvaluationOf(profile, p).reasons <==> Applies(r, profile, p)
  {
    EarlyReasonGiven(profile, p, r);
    var early := EarlyReasons(profile, p);
    if early != [] {
      hide EarlyReasons;
      assert Priceable(profile, p) ==> early == [];
    } else if !ValidRange(FindRange(profile.ranges, p.productType).value) {
      EarlyMeans(profile, p);
      hide EarlyReasons, FindRange, ValidRange;
    } else {
      UnachievableExactly(profile, p);
      EligibleExactly(profile, p);
      OneLateReason(profile, p);
      hide EarlyReasons, EvaluationOf, InPriceRange, LeastMeeting, BasisPoints, MeetsTarget;
    }
  }

  /** So a product is eligible exactly when no reason applies. */
  lemma EligibleWithoutReasons(profile: Profile, p: Product)
    ensures EvaluationOf(profile, p).Eligible? <==> forall r :: !Applies(r, profile, p)
  {
    var e := EvaluationOf(profile, p);
    forall r ensures Applies(r, profile, p) <==> e.Excluded? && r in e.reasons { ExcludedExactly(profile, p, r); }
    if e.Excluded? {
      assert e.reasons != [];
      assert Applies(e.reasons[0], profile, p);
    }
    hide Applies, EvaluationOf;
  }

  lemma OneLateReason(profile: Profile, p: Product)
    requires Priceable(profile, p)
    ensures EvaluationOf(profile, p) in [Excluded([TargetMarginUnachievable]), Excluded([MarginBelowFloor])] || EvaluationOf(profile, p).Eligible?
  {
    hide EarlyReasons, ChoosePrice, BasisPoints, MeetsTarget, ScoreProduct, ScoreComponents, FindRange;
  }

  /** No smaller price in the range meets the target, and this one does. */
  ghost predicate LeastMeeting(profile: Profile, p: Product, price: int) {
    && MeetsTarget(price, VariableCost(p), profile.targetMargin)
    && forall q :: q < price && InPriceRange(profile, p, q) ==> !MeetsTarget(q, VariableCost(p), profile.targetMargin)
  }

  // ---- the rest of the evaluation, written out ----

  /** The first range of the product's type counts. */
  lemma {:induction false} FirstRange(ranges: seq<PriceRange>, productType: string, range: PriceRange)
    ensures FindRange(ranges, productType) == Some(range)
       <==> exists i :: 0 <= i < |ranges| && ranges[i] == range && range.productType == productType
                        && forall k :: 0 <= k < i ==> ranges[k].productType != productType
  {
    if ranges != [] {
      FirstRange(ranges[1..], productType, range);
      if i :| 0 <= i < |ranges| - 1 && ranges[1..][i] == range && range.productType == productType
              && forall k :: 0 <= k < i ==> ranges[1..][k].productType != productType {
        if ranges[0].productType != productType {
          assert ranges[i + 1] == range;
          forall k | 0 <= k < i + 1 ensures ranges[k].productType != productType {
            if k > 0 { assert ranges[k] == ranges[1..][k - 1]; }
          }
        }
      }
      if i :| 0 <= i < |ranges| && ranges[i] == range && range.productType == productType
              && forall k :: 0 <= k < i ==> ranges[k].productType != productType {
        if i > 0 { assert ranges[1..][i - 1] == range; }
      }
    }
  }

  /** The share of the price left after the cost, in ten-thousandths and rounded down: what exceeds it is less than one. */
  lemma BasisPointsExactly(price: int, cost: real, n: int)
    requires price > 0
    ensures BasisPoints(price, cost) == n <==> 0.0 <= (price as real - cost) * 10000.0 - n as real * price as real < price as real
  {
    var q, r := Share(price, cost), price as real;
    assert BasisPoints(price, cost) == q.Floor && q * r == (price as real - cost) * 10000.0;
    hide *;
    FloorBounds(q, n);
    WholePart(q, r, n as real, q * r, n as real * r);
  }

  lemma WholePart(q: real, r: real, n: real, qr: real, nr: real)
    requires r > 0.0 && qr == q * r && nr == n * r
    ensures n <= q < n + 1.0 <==> 0.0 <= qr - nr < r
  {
    var x := q - n;
    assert x * r == qr - nr;
    if x < 0.0 {
      Positive(-x, r, -(x * r));
    } else if x < 1.0 {
      Nonnegative(x, r);
      Positive(1.0 - x, r, r - x * r);
    } else {
      Nonnegative(x - 1.0, r);
      assert (x - 1.0) * r == x * r - r;
    }
  }

  lemma FloorBounds(q: real, n: int)
    ensures q.Floor == n <==> n as real <= q < n as real + 1.0
  {
  }

  /** The order in which the reasons are given. */
  function Rank(r: Reason): nat {
    match r
    case CurrencyMismatch => 0
    case ProductTypeExcluded => 1
    case PriceRangeMissing => 2
    case UnsupportedTargetMarket => 3
    case OutOfStockTargetMarket => 4
    case DesignPlacementMissing => 5
    case InvalidVariableCost => 6
    case InvalidPriceRange => 7
    case TargetMarginUnachievable => 8
    case MarginBelowFloor => 9
  }

  predicate Ascending(reasons: seq<Reason>) { forall i, j :: 0 <= i < j < |reasons| ==> Rank(reasons[i]) < Rank(reasons[j]) }

  predicate Below(reasons: seq<Reason>, rank: nat) { forall r :: r in reasons ==> Rank(r) < rank }

  ghost predicate InOrder(reasons: seq<Reason>, rank: nat) { Ascending(reasons) && Below(reasons, rank) }

  lemma InOrderNext(reasons: seq<Reason>, condition: bool, reason: Reason)
    requires InOrder(reasons, Rank(reason))
    ensures InOrder(reasons + When(condition, reason), Rank(reason) + 1)
  {
  }

  lemma SevenInOrder(a: bool, b: bool, c: bool, d: bool, e: bool, f: bool, g: bool)
    ensures InOrder(When(a, CurrencyMismatch) + When(b, ProductTypeExcluded) + When(c, PriceRangeMissing) + When(d, UnsupportedTargetMarket)
                    + When(e, OutOfStockTargetMarket) + When(f, DesignPlacementMissing) + When(g, InvalidVariableCost), 7)
  {
    var first := When(a, CurrencyMismatch);
    assert InOrder(first, 1);
    hide InOrder, When;
    InOrderNext(first, b, ProductTypeExcluded);
    var three := first + When(b, ProductTypeExcluded) + When(c, PriceRangeMissing);
    InOrderNext(first + When(b, ProductTypeExcluded), c, PriceRangeMissing);
    var five := three + When(d, UnsupportedTargetMarket) + When(e, OutOfStockTargetMarket);
    InOrderNext(three, d, UnsupportedTargetMarket);
    InOrderNext(three + When(d, UnsupportedTargetMarket), e, OutOfStockTargetMarket);
    InOrderNext(five, f, DesignPlacementMissing);
    InOrderNext(five + When(f, DesignPlacementMissing), g, InvalidVariableCost);
  }

  lemma EarlyInOrder(profile: Profile, p: Product)
    ensures InOrder(EarlyReasons(profile, p), 7)
  {
    SevenInOrder(p.currency != profile.currency, p.productType in profile.excluded, FindRange(profile.ranges, p.productType).None?,
                 Unsupported(profile, p), OutOfStock(profile, p), p.placements == [],
                 !IsInteger(VariableCost(p)) || VariableCost(p) <= 0.0);
    hide InOrder, When, FindRange, Unsupported, OutOfStock, IsInteger, VariableCost;
  }

  /** The reasons come in one fixed order, none twice; so the ones that apply determine the list. */
  lemma ReasonsInOrder(profile: Profile, p: Product)
    requires EvaluationOf(profile, p).Excluded?
    ensures Ascending(EvaluationOf(profile, p).reasons)
  {
    EarlyInOrder(profile, p);
    hide EarlyReasons, ChoosePrice, BasisPoints, ScoreProduct, ScoreComponents, FindRange, MarginScore;
  }

  /** What an eligible product is scored by: the step its margin reaches, whether the profile prefers its type, whether it
      can be printed on the front, ten points for every size and colour up to a hundred, and its return risk. */
  lemma ScoredBy(profile: Profile, p: Product)
    requires EvaluationOf(profile, p).Eligible?
    ensures var e := EvaluationOf(profile, p);
            && e.components.margin == (if e.marginBasisPoints < 4000 then 35.0 else if e.marginBasisPoints < 5000 then 65.0
                                       else if e.marginBasisPoints < 6000 then 85.0 else 100.0)
            && e.components.targetFit == (if p.productType in profile.preferred then 100.0 else 40.0)
            && e.components.shipping == 100.0
            && e.components.designFit == (if "front" in p.placements then 100.0 else 75.0)
            && e.components.variety == (if |p.sizes| + |p.colors| >= 10 then 100.0 else 10.0 * (|p.sizes| + |p.colors|) as real)
            && e.components.returnSafety == (if p.returnRisk.Low? then 90.0 else if p.returnRisk.Medium? then 60.0 else 30.0)
  {
    EarlyMeans(profile, p);
    MarginScoreSteps(EvaluationOf(profile, p).marginBasisPoints);
    hide EarlyReasons, ChoosePrice, BasisPoints, ScoreProduct, FindRange, MarginScore;
  }
}

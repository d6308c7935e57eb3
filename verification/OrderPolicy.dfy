/**
 Money (src/domain/money.ts) and the order policy (src/domain/order-policy.ts:43-73). Amounts are
 unbounded integers, as bigint is; bigint division truncates toward zero.
 */
module OrderPolicy {

  datatype Money = Money(amountMinor: int, currency: string)

  datatype Result<T> = Ok(value: T) | NoValues | CurrencyMismatch | RevenueNotPositive | InvalidCurrency

  /** bigint's `/`. */
  function TruncDiv(a: int, b: int): int
    requires b > 0
  {
    if a >= 0 then a / b else -((-a) / b)
  }

  // ---- sums ----

  /** `/^[A-Z]{3}$/` */
  predicate IsCode(currency: string) {
    |currency| == 3 && forall c :: c in currency ==> 'A' <= c <= 'Z'
  }

  /** JavaScript's `trim` and `toUpperCase`: any function of the text that leaves the codes alone. */
  ghost predicate Folds(fold: string -> string) { forall c :: IsCode(c) ==> fold(c) == c }

  /** `money` normalises the currency and refuses what is then no code. */
  function MakeMoney(fold: string -> string, amountMinor: int, currency: string): Result<Money> {
    if IsCode(fold(currency)) then Ok(Money(amountMinor, fold(currency))) else InvalidCurrency
  }

  predicate SameCurrency(values: seq<Money>) { forall v :: v in values ==> v.currency == values[0].currency }

  function Total(values: seq<Money>): int {
    if values == [] then 0 else Total(values[..|values| - 1]) + values[|values| - 1].amountMinor
  }

  /** The currencies are compared as they are; only the sum is normalised. */
  function SumMoney(fold: string -> string, values: seq<Money>): Result<Money> {
    if values == [] then NoValues
    else if !SameCurrency(values) then CurrencyMismatch
    else MakeMoney(fold, Total(values), values[0].currency)
  }

  lemma {:induction false} TotalJoined(a: seq<Money>, b: seq<Money>)
    ensures Total(a + b) == Total(a) + Total(b)
    decreases |b|
  {
    if b == [] {
      assert a + b == a;
    } else {
      assert (a + b)[..|a| + |b| - 1] == a + b[..|b| - 1];
      TotalJoined(a, b[..|b| - 1]);
    }
  }

  lemma TotalOfTwo(x: Money, y: Money)
    ensures Total([x, y]) == x.amountMinor + y.amountMinor
  {
    assert [x, y][..1] == [x] && [x][..0] == [];
    assert Total([x, y]) == Total([x]) + y.amountMinor && Total([x]) == Total([]) + x.amountMinor;
  }

  /** Summing in two parts gives what summing at once gives, the amount or the currency error, exactly unless the
      parts' currencies are different texts for one code: at once they clash, in parts they do not. */
  lemma SumInParts(fold: string -> string, a: seq<Money>, b: seq<Money>)
    requires Folds(fold) && SumMoney(fold, a).Ok? && SumMoney(fold, b).Ok?
    ensures SumMoney(fold, a + b) == SumMoney(fold, [SumMoney(fold, a).value, SumMoney(fold, b).value])
       <==> a[0].currency == b[0].currency || fold(a[0].currency) != fold(b[0].currency)
  {
    var x, y := SumMoney(fold, a).value, SumMoney(fold, b).value;
    TotalJoined(a, b);
    TotalOfTwo(x, y);
    assert a[0] in a + b && b[0] in a + b;
    assert forall v :: v in a + b <==> v in a || v in b;
    assert [x, y][0] == x && [x, y][1] == y && y in [x, y];
    hide Total, IsCode;
  }

  /** Sums of amounts made by `money` can always be taken in parts. */
  lemma MadeSumInParts(fold: string -> string, a: seq<Money>, b: seq<Money>)
    requires Folds(fold) && a != [] && b != []
    requires forall v :: v in a + b ==> MakeMoney(fold, v.amountMinor, v.currency) == Ok(v)
    requires SumMoney(fold, a).Ok? && SumMoney(fold, b).Ok?
    ensures SumMoney(fold, a + b) == SumMoney(fold, [SumMoney(fold, a).value, SumMoney(fold, b).value])
  {
    SumInParts(fold, a, b);
    assert a[0] in a + b && b[0] in a + b;
    assert MakeMoney(fold, a[0].amountMinor, a[0].currency) == Ok(a[0]) && MakeMoney(fold, b[0].amountMinor, b[0].currency) == Ok(b[0]);
    hide SumMoney;
  }

  /** Such a clash: "usd" and "USD". */
  lemma MixedCaseClashes(fold: string -> string)
    requires Folds(fold) && fold("usd") == "USD"
    ensures var a, b := [Money(1, "usd")], [Money(1, "USD")];
            && SumMoney(fold, a) == Ok(Money(1, "USD")) && SumMoney(fold, b) == Ok(Money(1, "USD"))
            && SumMoney(fold, a + b) == CurrencyMismatch
            && SumMoney(fold, [Money(1, "USD"), Money(1, "USD")]) == Ok(Money(2, "USD"))
  {
    var a, b := Money(1, "usd"), Money(1, "USD");
    assert IsCode("USD");
    assert [a][..0] == [] && [b][..0] == [];
    assert Total([a]) == 1 && Total([b]) == 1;
    TotalOfTwo(b, b);
    assert ([a] + [b])[1] == b && b in [a] + [b] && ([a] + [b])[0] == a;
    assert "usd"[0] != "USD"[0];
    hide Total;
  }

  function MarginBasisPoints(revenue: Money, variableCost: Money): Result<int> {
    if revenue.currency != variableCost.currency then CurrencyMismatch
    else if revenue.amountMinor <= 0 then RevenueNotPositive
    else Ok(TruncDiv((revenue.amountMinor - variableCost.amountMinor) * 10000, revenue.amountMinor))
  }

  // ---- the policy ----

  datatype Reason = NegativeMargin | UnsupportedCountry | InvalidAddress | VariantUnavailable | CostSpike | HighValueOrder
                  | MissingDesign | MappingAmbiguous | PaymentNotReady | DuplicateSubmission

  /** The shipping country is already in upper case. */
  datatype Input = Input(
    revenue: Money, currentVariableCost: Money, approvedVariableCost: Money, shippingCountry: string, allowedCountries: set<string>,
    addressValid: bool, variantAvailable: bool, designPresent: bool, mappingCount: int, paymentReady: bool, alreadySubmitted: bool,
    itemCount: int)

  datatype Policy = Policy(maxOrderAmountMinor: int, maxItemCount: int, maxCostIncreaseBasisPoints: int)

  datatype Status = Ready | ReviewRequired | Blocked | Waiting | AlreadyProcessed

  datatype Decision = Decision(status: Status, reasons: seq<Reason>, marginBasisPoints: int)

  function When(condition: bool, reason: Reason): seq<Reason> { if condition then [reason] else [] }

  predicate HighValue(input: Input, policy: Policy) {
    input.revenue.amountMinor > policy.maxOrderAmountMinor || input.itemCount > policy.maxItemCount
  }

  predicate Spike(input: Input, policy: Policy) {
    && input.approvedVariableCost.amountMinor > 0
    && TruncDiv((input.currentVariableCost.amountMinor - input.approvedVariableCost.amountMinor) * 10000,
                input.approvedVariableCost.amountMinor) > policy.maxCostIncreaseBasisPoints
  }

  function OrderReasons(input: Input): seq<Reason> {
    When(input.alreadySubmitted, DuplicateSubmission)
    + When(!input.paymentReady, PaymentNotReady)
    + When(input.shippingCountry !in input.allowedCountries, UnsupportedCountry)
    + When(!input.addressValid, InvalidAddress)
    + When(!input.variantAvailable, VariantUnavailable)
  }

  /** All reasons, in the source's order. */
  function Reasons(input: Input, policy: Policy, margin: int): seq<Reason> {
    OrderReasons(input)
    + When(!input.designPresent, MissingDesign)
    + When(input.mappingCount != 1, MappingAmbiguous)
    + When(margin < 0, NegativeMargin)
    + When(HighValue(input, policy), HighValueOrder)
    + When(Spike(input, policy), CostSpike)
  }

  predicate Blocking(r: Reason) { r in {NegativeMargin, UnsupportedCountry, MissingDesign, MappingAmbiguous} }

  function StatusOf(reasons: seq<Reason>): Status {
    if DuplicateSubmission in reasons then AlreadyProcessed
    else if PaymentNotReady in reasons then Waiting
    else if exists r :: r in reasons && Blocking(r) then Blocked
    else if reasons != [] then ReviewRequired
    else Ready
  }

  function DecisionOf(input: Input, policy: Policy): Result<Decision> {
    match MarginBasisPoints(input.revenue, input.currentVariableCost)
    case Ok(margin) => Ok(Decision(StatusOf(Reasons(input, policy, margin)), Reasons(input, policy, margin), margin))
    case NoValues => NoValues
    case CurrencyMismatch => CurrencyMismatch
    case RevenueNotPositive => RevenueNotPositive
    case InvalidCurrency => InvalidCurrency
  }

  /** `if (condition) reasons.push(reason)` */
  method PushWhen(reasons: seq<Reason>, condition: bool, reason: Reason) returns (r: seq<Reason>)
    ensures r == reasons + When(condition, reason)
  {
    r := reasons;
    if condition { r := r + [reason]; }
  }

  method EvaluateOrder(input: Input, policy: Policy) returns (r: Result<Decision>)
    ensures r == DecisionOf(input, policy)
  {
    hide When, TruncDiv, Blocking;
    var margin := MarginBasisPoints(input.revenue, input.currentVariableCost);
    if margin.CurrencyMismatch? { return CurrencyMismatch; }
    if margin.RevenueNotPositive? { return RevenueNotPositive; }
    var reasons := PushWhen([], input.alreadySubmitted, DuplicateSubmission);
    assert reasons == When(input.alreadySubmitted, DuplicateSubmission);
    reasons := PushWhen(reasons, !input.paymentReady, PaymentNotReady);
    reasons := PushWhen(reasons, input.shippingCountry !in input.allowedCountries, UnsupportedCountry);
    reasons := PushWhen(reasons, !input.addressValid, InvalidAddress);
    reasons := PushWhen(reasons, !input.variantAvailable, VariantUnavailable);
    reasons := PushWhen(reasons, !input.designPresent, MissingDesign);
    reasons := PushWhen(reasons, input.mappingCount != 1, MappingAmbiguous);
    reasons := PushWhen(reasons, margin.value < 0, NegativeMargin);
    reasons := PushWhen(reasons, HighValue(input, policy), HighValueOrder);
    var spike := false;
    if input.approvedVariableCost.amountMinor > 0 {
      var increase := input.currentVariableCost.amountMinor - input.approvedVariableCost.amountMinor;
      spike := TruncDiv(increase * 10000, input.approvedVariableCost.amountMinor) > policy.maxCostIncreaseBasisPoints;
    }
    reasons := PushWhen(reasons, spike, CostSpike);
    assert reasons == Reasons(input, policy, margin.value);
    hide Reasons;
    var status := Ready;
    if DuplicateSubmission in reasons {
      status := AlreadyProcessed;
    } else if PaymentNotReady in reasons {
      status := Waiting;
    } else if exists x :: x in reasons && Blocking(x) {
      status := Blocked;
    } else if reasons != [] {
      status := ReviewRequired;
    }
    return Ok(Decision(status, reasons, margin.value));
  }

  // ---- truncating division ----

  lemma TruncDivMonotone(a: int, c: int, b: int)
    requires b > 0 && a <= c
    ensures TruncDiv(a, b) <= TruncDiv(c, b)
  {
    TruncDivBounds(a, b);
    TruncDivBounds(c, b);
    var x, y := TruncDiv(a, b), TruncDiv(c, b);
    hide TruncDiv;
    if x > y { Times(x - y, b); }
  }

  lemma Times(n: int, b: int)
    requires n >= 1 && b > 0
    ensures n * b >= b
  {
  }

  lemma FloorBounds(a: nat, b: nat)
    requires b > 0
    ensures (a / b) * b <= a < (a / b + 1) * b
  {
    assert a == b * (a / b) + a % b;
    Spread(a / b, b);
  }

  lemma Spread(q: int, b: int)
    ensures (q + 1) * b == q * b + b && (q - 1) * b == q * b - b && (-q) * b == -(q * b)
  {
  }

  /** The quotient is the exact one rounded toward zero. */
  lemma TruncDivBounds(a: int, b: int)
    requires b > 0
    ensures var q := TruncDiv(a, b);
            && (a >= 0 ==> 0 <= q && q * b <= a < (q + 1) * b)
            && (a <= 0 ==> q <= 0 && (q - 1) * b < a <= q * b)
  {
    if a >= 0 { TruncUp(a, b); } else { TruncDown(-a, b); }
    hide TruncDiv;
  }

  lemma TruncUp(a: nat, b: int)
    requires b > 0
    ensures var q := TruncDiv(a, b);
            && 0 <= q && q * b <= a < (q + 1) * b
            && (a == 0 ==> q == 0 && (q - 1) * b < 0 <= q * b)
  {
    FloorBounds(a, b);
    QuotientSign(a, b);
    if a == 0 { ZeroQuotient(b); }
  }

  lemma TruncDown(a: int, b: int)
    requires b > 0 && a > 0
    ensures var q := TruncDiv(-a, b);
            q <= 0 && (q - 1) * b < -a <= q * b
  {
    var p := a / b;
    FloorBounds(a, b);
    QuotientSign(a, b);
    Negated(p, b, a);
    assert TruncDiv(-a, b) == -p;
    hide TruncDiv;
  }

  lemma Negated(p: int, b: int, a: int)
    requires p * b <= a < (p + 1) * b
    ensures (-p - 1) * b < -a <= (-p) * b
  {
    Spread(p, b);
    Spread(-p, b);
  }

  lemma QuotientSign(a: nat, b: int)
    requires b > 0
    ensures a / b >= 0
  {
  }

  lemma ZeroQuotient(b: int)
    requires b > 0
    ensures TruncDiv(0, b) == 0 && (0 - 1) * b < 0 && 0 * b == 0
  {
  }

  /** Comparing a truncated quotient with a whole number compares the exact values. */
  lemma TruncDivExceeds(a: int, b: int, limit: int)
    requires b > 0
    ensures TruncDiv(a, b) > limit <==> if limit >= 0 then a >= (limit + 1) * b else a > limit * b
  {
    TruncDivBounds(a, b);
    var q := TruncDiv(a, b);
    hide TruncDiv;
    TimesOrder(q, limit, b);
    TimesOrder(q - 1, limit, b);
    TimesOrder(q, limit + 1, b);
    TimesOrder(q + 1, limit + 1, b);
    TimesOrder(limit + 1, 0, b);
    TimesOrder(limit, 0, b);
  }

  /** Multiplying by b keeps the order. */
  lemma TimesOrder(m: int, n: int, b: int)
    requires b > 0
    ensures m < n <==> m * b < n * b
    ensures m == 0 ==> m * b == 0
    ensures n == 0 ==> n * b == 0
  {
    Minus(n, m, b);
    if m < n { Times(n - m, b); } else if m > n { Minus(m, n, b); Times(m - n, b); }
  }

  lemma Minus(m: int, n: int, b: int)
    ensures (m - n) * b == m * b - n * b
  {
  }

  // ---- what each cost reason means ----

  /** A negative margin is a loss of at least one basis point of the revenue. */
  lemma NegativeMarginExactly(revenue: Money, cost: Money)
    requires MarginBasisPoints(revenue, cost).Ok?
    ensures MarginBasisPoints(revenue, cost).value < 0 <==> (cost.amountMinor - revenue.amountMinor) * 10000 >= revenue.amountMinor
  {
    TruncDivExceeds((revenue.amountMinor - cost.amountMinor) * 10000, revenue.amountMinor, -1);
    hide TruncDiv;
  }

  /** A cost spike is a rise of the approved cost above the limit, by a whole basis point when the limit is not negative. */
  lemma SpikeExactly(input: Input, policy: Policy)
    ensures Spike(input, policy) <==>
      var approved, limit := input.approvedVariableCost.amountMinor, policy.maxCostIncreaseBasisPoints;
      var rise := input.currentVariableCost.amountMinor - approved;
      approved > 0 && if limit >= 0 then rise * 10000 >= (limit + 1) * approved else rise * 10000 > limit * approved
  {
    var approved := input.approvedVariableCost.amountMinor;
    if approved > 0 {
      TruncDivExceeds((input.currentVariableCost.amountMinor - approved) * 10000, approved, policy.maxCostIncreaseBasisPoints);
    }
    hide TruncDiv;
  }

  /** The margin is the share of the revenue that is left, in basis points and toward zero: a profit is never overstated
      and a loss neither, and each by less than a basis point. */
  lemma MarginExactly(revenue: Money, cost: Money)
    ensures MarginBasisPoints(revenue, cost).Ok? <==> revenue.currency == cost.currency && revenue.amountMinor > 0
    ensures MarginBasisPoints(revenue, cost).CurrencyMismatch? <==> revenue.currency != cost.currency
    ensures MarginBasisPoints(revenue, cost).Ok? ==>
              var margin, left := MarginBasisPoints(revenue, cost).value, (revenue.amountMinor - cost.amountMinor) * 10000;
              && (left >= 0 ==> margin >= 0 && 0 <= left - margin * revenue.amountMinor < revenue.amountMinor)
              && (left <= 0 ==> margin <= 0 && 0 <= margin * revenue.amountMinor - left < revenue.amountMinor)
  {
    if revenue.amountMinor > 0 {
      var left := (revenue.amountMinor - cost.amountMinor) * 10000;
      TruncDivBounds(left, revenue.amountMinor);
      Spread(TruncDiv(left, revenue.amountMinor), revenue.amountMinor);
    }
    hide TruncDiv;
  }

  // ---- raising the cost ----

  /** The condition under which each reason is given. */
  predicate Applies(r: Reason, input: Input, policy: Policy, margin: int) {
    match r
    case DuplicateSubmission => input.alreadySubmitted
    case PaymentNotReady => !input.paymentReady
    case UnsupportedCountry => input.shippingCountry !in input.allowedCountries
    case InvalidAddress => !input.addressValid
    case VariantUnavailable => !input.variantAvailable
    case MissingDesign => !input.designPresent
    case MappingAmbiguous => input.mappingCount != 1
    case NegativeMargin => margin < 0
    case HighValueOrder => input.revenue.amountMinor > policy.maxOrderAmountMinor || input.itemCount > policy.maxItemCount
    case CostSpike => Spike(input, policy)
  }

  lemma ReasonGiven(r: Reason, input: Input, policy: Policy, margin: int)
    ensures r in Reasons(input, policy, margin) <==> Applies(r, input, policy, margin)
  {
    OrderReasonGiven(r, input);
    hide OrderReasons;
    GivenWhen(r, !input.designPresent, MissingDesign);
    GivenWhen(r, input.mappingCount != 1, MappingAmbiguous);
    GivenWhen(r, margin < 0, NegativeMargin);
    GivenWhen(r, HighValue(input, policy), HighValueOrder);
    GivenWhen(r, Spike(input, policy), CostSpike);
    hide Spike, When;
  }

  lemma OrderReasonGiven(r: Reason, input: Input)
    ensures r in OrderReasons(input) <==>
              r in {DuplicateSubmission, PaymentNotReady, UnsupportedCountry, InvalidAddress, VariantUnavailable}
              && Applies(r, input, Policy(0, 0, 0), 0)
  {
    GivenWhen(r, input.alreadySubmitted, DuplicateSubmission);
    GivenWhen(r, !input.paymentReady, PaymentNotReady);
    GivenWhen(r, input.shippingCountry !in input.allowedCountries, UnsupportedCountry);
    GivenWhen(r, !input.addressValid, InvalidAddress);
    GivenWhen(r, !input.variantAvailable, VariantUnavailable);
    hide Spike, HighValue, When;
  }

  lemma GivenWhen(r: Reason, condition: bool, reason: Reason)
    ensures r in When(condition, reason) <==> condition && r == reason
  {
  }

  /** A decision is made exactly for one currency and a positive revenue, and a reason is among its reasons exactly
      when it applies, and then once. */
  lemma ReasonsExactly(input: Input, policy: Policy, r: Reason)
    ensures DecisionOf(input, policy).Ok? <==> input.revenue.currency == input.currentVariableCost.currency && input.revenue.amountMinor > 0
    ensures DecisionOf(input, policy).Ok? ==>
              var d := DecisionOf(input, policy).value;
              && (r in d.reasons <==> Applies(r, input, policy, d.marginBasisPoints))
              && multiset(d.reasons)[r] <= 1
  {
    hide TruncDiv, Reasons, StatusOf;
    if DecisionOf(input, policy).Ok? {
      var margin := DecisionOf(input, policy).value.marginBasisPoints;
      ReasonGiven(r, input, policy, margin);
      ReasonOnce(r, input, policy, margin);
    }
  }

  lemma ReasonOnce(r: Reason, input: Input, policy: Policy, margin: int)
    ensures multiset(Reasons(input, policy, margin))[r] <= 1
  {
    OrderReasonOnce(r, input);
    hide Spike, HighValue, When, OrderReasons;
    OnceWhen(r, !input.designPresent, MissingDesign);
    OnceWhen(r, input.mappingCount != 1, MappingAmbiguous);
    OnceWhen(r, margin < 0, NegativeMargin);
    OnceWhen(r, HighValue(input, policy), HighValueOrder);
    OnceWhen(r, Spike(input, policy), CostSpike);
  }

  lemma OrderReasonOnce(r: Reason, input: Input)
    ensures multiset(OrderReasons(input))[r] <= 1
    ensures r in {MissingDesign, MappingAmbiguous, NegativeMargin, HighValueOrder, CostSpike} ==> multiset(OrderReasons(input))[r] == 0
  {
    hide When;
    OnceWhen(r, input.alreadySubmitted, DuplicateSubmission);
    OnceWhen(r, !input.paymentReady, PaymentNotReady);
    OnceWhen(r, input.shippingCountry !in input.allowedCountries, UnsupportedCountry);
    OnceWhen(r, !input.addressValid, InvalidAddress);
    OnceWhen(r, !input.variantAvailable, VariantUnavailable);
  }

  lemma OnceWhen(r: Reason, condition: bool, reason: Reason)
    ensures multiset(When(condition, reason))[r] == if condition && r == reason then 1 else 0
  {
  }

  /** The order in which the reasons are given. */
  function Rank(r: Reason): nat {
    match r
    case DuplicateSubmission => 0
    case PaymentNotReady => 1
    case UnsupportedCountry => 2
    case InvalidAddress => 3
    case VariantUnavailable => 4
    case MissingDesign => 5
    case MappingAmbiguous => 6
    case NegativeMargin => 7
    case HighValueOrder => 8
    case CostSpike => 9
  }

  ghost predicate InOrder(reasons: seq<Reason>, rank: nat) {
    && (forall i, j :: 0 <= i < j < |reasons| ==> Rank(reasons[i]) < Rank(reasons[j]))
    && forall r :: r in reasons ==> Rank(r) < rank
  }

  lemma InOrderNext(reasons: seq<Reason>, condition: bool, reason: Reason)
    requires InOrder(reasons, Rank(reason))
    ensures InOrder(reasons + When(condition, reason), Rank(reason) + 1)
  {
  }

  lemma FiveInOrder(a: bool, b: bool, c: bool, d: bool, e: bool)
    ensures InOrder(When(a, DuplicateSubmission) + When(b, PaymentNotReady) + When(c, UnsupportedCountry) + When(d, InvalidAddress)
                    + When(e, VariantUnavailable), 5)
  {
    var first := When(a, DuplicateSubmission);
    assert InOrder(first, 1);
    hide InOrder, When;
    var three := first + When(b, PaymentNotReady) + When(c, UnsupportedCountry);
    InOrderNext(first, b, PaymentNotReady);
    InOrderNext(first + When(b, PaymentNotReady), c, UnsupportedCountry);
    InOrderNext(three, d, InvalidAddress);
    InOrderNext(three + When(d, InvalidAddress), e, VariantUnavailable);
  }

  lemma OrderReasonsInOrder(input: Input)
    ensures InOrder(OrderReasons(input), 5)
  {
    FiveInOrder(input.alreadySubmitted, !input.paymentReady, input.shippingCountry !in input.allowedCountries, !input.addressValid,
                !input.variantAvailable);
    hide InOrder, When;
  }

  /** The reasons come in one fixed order; so the ones that apply determine the list. */
  lemma ReasonsInOrder(input: Input, policy: Policy)
    requires DecisionOf(input, policy).Ok?
    ensures InOrder(DecisionOf(input, policy).value.reasons, 10)
  {
    AllInOrder(input, policy, DecisionOf(input, policy).value.marginBasisPoints);
    hide InOrder, Reasons, StatusOf, TruncDiv;
  }

  lemma AllInOrder(input: Input, policy: Policy, margin: int)
    ensures InOrder(Reasons(input, policy, margin), 10)
  {
    OrderReasonsInOrder(input);
    hide InOrder, When, OrderReasons, HighValue, Spike;
    var six := OrderReasons(input) + When(!input.designPresent, MissingDesign);
    var seven := six + When(input.mappingCount != 1, MappingAmbiguous);
    var eight := seven + When(margin < 0, NegativeMargin);
    InOrderNext(OrderReasons(input), !input.designPresent, MissingDesign);
    InOrderNext(six, input.mappingCount != 1, MappingAmbiguous);
    InOrderNext(seven, margin < 0, NegativeMargin);
    InOrderNext(eight, HighValue(input, policy), HighValueOrder);
    InOrderNext(eight + When(HighValue(input, policy), HighValueOrder), Spike(input, policy), CostSpike);
  }

  /** What each status means: a repeated submission before everything else, then a payment that is not there yet,
      then a loss of a basis point, a country, a missing design or an unclear mapping that blocks, then any other reason. */
  lemma StatusExactly(input: Input, policy: Policy)
    requires DecisionOf(input, policy).Ok?
    ensures var status := DecisionOf(input, policy).value.status;
            var loss := (input.currentVariableCost.amountMinor - input.revenue.amountMinor) * 10000 >= input.revenue.amountMinor;
            var blocked := loss || input.shippingCountry !in input.allowedCountries || !input.designPresent || input.mappingCount != 1;
            var unclear := !input.addressValid || !input.variantAvailable || HighValue(input, policy) || Spike(input, policy);
            && (status == AlreadyProcessed <==> input.alreadySubmitted)
            && (status == Waiting <==> !input.alreadySubmitted && !input.paymentReady)
            && (status == Blocked <==> !input.alreadySubmitted && input.paymentReady && blocked)
            && (status == ReviewRequired <==> !input.alreadySubmitted && input.paymentReady && !blocked && unclear)
            && (status == Ready <==> !input.alreadySubmitted && input.paymentReady && !blocked && !unclear)
  {
    var margin := MarginBasisPoints(input.revenue, input.currentVariableCost).value;
    NegativeMarginExactly(input.revenue, input.currentVariableCost);
    StatusFrom(Reasons(input, policy, margin));
    OrderGiven(input, policy, margin);
    RestGiven(input, policy, margin);
    hide TruncDiv, Spike, HighValue, Reasons, MarginBasisPoints, StatusOf;
  }

  lemma OrderGiven(input: Input, policy: Policy, margin: int)
    ensures var reasons := Reasons(input, policy, margin);
            && (DuplicateSubmission in reasons <==> input.alreadySubmitted)
            && (PaymentNotReady in reasons <==> !input.paymentReady)
            && (UnsupportedCountry in reasons <==> input.shippingCountry !in input.allowedCountries)
            && (InvalidAddress in reasons <==> !input.addressValid)
            && (VariantUnavailable in reasons <==> !input.variantAvailable)
  {
    hide Spike, HighValue, Reasons;
    ReasonGiven(DuplicateSubmission, input, policy, margin);
    ReasonGiven(PaymentNotReady, input, policy, margin);
    ReasonGiven(UnsupportedCountry, input, policy, margin);
    ReasonGiven(InvalidAddress, input, policy, margin);
    ReasonGiven(VariantUnavailable, input, policy, margin);
  }

  lemma RestGiven(input: Input, policy: Policy, margin: int)
    ensures var reasons := Reasons(input, policy, margin);
            && (MissingDesign in reasons <==> !input.designPresent)
            && (MappingAmbiguous in reasons <==> input.mappingCount != 1)
            && (NegativeMargin in reasons <==> margin < 0)
            && (HighValueOrder in reasons <==> HighValue(input, policy))
            && (CostSpike in reasons <==> Spike(input, policy))
  {
    hide Spike, Reasons;
    ReasonGiven(MissingDesign, input, policy, margin);
    ReasonGiven(MappingAmbiguous, input, policy, margin);
    ReasonGiven(NegativeMargin, input, policy, margin);
    ReasonGiven(HighValueOrder, input, policy, margin);
    ReasonGiven(CostSpike, input, policy, margin);
  }

  lemma StatusFrom(reasons: seq<Reason>)
    ensures StatusOf(reasons) ==
      if DuplicateSubmission in reasons then AlreadyProcessed
      else if PaymentNotReady in reasons then Waiting
      else if NegativeMargin in reasons || UnsupportedCountry in reasons || MissingDesign in reasons || MappingAmbiguous in reasons then Blocked
      else if InvalidAddress in reasons || VariantUnavailable in reasons || HighValueOrder in reasons || CostSpike in reasons then ReviewRequired
      else Ready
  {
    BlockingFrom(reasons);
    if StatusOf(reasons) in {ReviewRequired, Ready} { SomeReason(reasons); }
    hide Blocking;
  }

  lemma BlockingFrom(reasons: seq<Reason>)
    ensures (exists r :: r in reasons && Blocking(r))
      <==> NegativeMargin in reasons || UnsupportedCountry in reasons || MissingDesign in reasons || MappingAmbiguous in reasons
  {
    assert Blocking(NegativeMargin) && Blocking(UnsupportedCountry) && Blocking(MissingDesign) && Blocking(MappingAmbiguous);
  }

  lemma SomeReason(reasons: seq<Reason>)
    requires DuplicateSubmission !in reasons && PaymentNotReady !in reasons
    requires NegativeMargin !in reasons && UnsupportedCountry !in reasons && MissingDesign !in reasons && MappingAmbiguous !in reasons
    ensures reasons != [] <==>
              InvalidAddress in reasons || VariantUnavailable in reasons || HighValueOrder in reasons || CostSpike in reasons
  {
    if reasons != [] {
      AllReasons(reasons[0]);
      assert reasons[0] in reasons;
    }
  }

  lemma AllReasons(r: Reason)
    ensures r in {NegativeMargin, UnsupportedCountry, InvalidAddress, VariantUnavailable, CostSpike, HighValueOrder,
                  MissingDesign, MappingAmbiguous, PaymentNotReady, DuplicateSubmission}
  {
  }

  function WithCost(input: Input, cost: int): Input {
    input.(currentVariableCost := input.currentVariableCost.(amountMinor := cost))
  }

  function Severity(s: Status): int {
    match s
    case Ready => 0
    case ReviewRequired => 1
    case Blocked => 2
    case Waiting => 3
    case AlreadyProcessed => 4
  }

  lemma MoreReasons(a: seq<Reason>, b: seq<Reason>)
    requires forall r :: r in a ==> r in b
    requires DuplicateSubmission in a <==> DuplicateSubmission in b
    requires PaymentNotReady in a <==> PaymentNotReady in b
    ensures Severity(StatusOf(a)) <= Severity(StatusOf(b))
    ensures StatusOf(a) in {Waiting, AlreadyProcessed} ==> StatusOf(b) == StatusOf(a)
    ensures StatusOf(b) in {Waiting, AlreadyProcessed} ==> StatusOf(a) == StatusOf(b)
  {
    if a != [] { assert a[0] in b; }
  }

  /** Every reason stays, at most the two cost reasons are added, and the severity does not drop. */
  ghost predicate NoBetter(before: Decision, after: Decision) {
    && (forall r :: r in before.reasons ==> r in after.reasons)
    && (forall r :: r in after.reasons && r !in before.reasons ==> r == NegativeMargin || r == CostSpike)
    && after.marginBasisPoints <= before.marginBasisPoints
    && Severity(before.status) <= Severity(after.status)
    && (before.status in {Waiting, AlreadyProcessed} || after.status in {Waiting, AlreadyProcessed} ==> after.status == before.status)
  }

  /**
   Raising the current cost, with everything else fixed, never removes a reason, adds at most the two
   cost reasons, and never lowers the severity; waiting and processed orders stay what they are.
   */
  lemma RaisingCost(input: Input, policy: Policy, cost: int)
    requires DecisionOf(input, policy).Ok? && cost >= input.currentVariableCost.amountMinor
    ensures DecisionOf(WithCost(input, cost), policy).Ok?
    ensures NoBetter(DecisionOf(input, policy).value, DecisionOf(WithCost(input, cost), policy).value)
  {
    var raised := WithCost(input, cost);
    CostFacts(input, policy, cost);
    hide TruncDiv, Spike, StatusOf, Reasons, HighValue, NoBetter;
    WorseReasons(input, raised, policy, MarginBasisPoints(input.revenue, input.currentVariableCost).value,
                 MarginBasisPoints(raised.revenue, raised.currentVariableCost).value);
  }

  lemma WorseReasons(input: Input, raised: Input, policy: Policy, margin: int, lower: int)
    requires raised == WithCost(input, raised.currentVariableCost.amountMinor) && lower <= margin
    requires (Spike(input, policy) ==> Spike(raised, policy)) && HighValue(input, policy) == HighValue(raised, policy)
    ensures NoBetter(Decision(StatusOf(Reasons(input, policy, margin)), Reasons(input, policy, margin), margin),
                     Decision(StatusOf(Reasons(raised, policy, lower)), Reasons(raised, policy, lower), lower))
  {
    hide TruncDiv, Spike, StatusOf, Reasons, HighValue;
    MoreApplies(input, raised, policy, margin, lower);
    MoreReasons(Reasons(input, policy, margin), Reasons(raised, policy, lower));
  }

  /** A higher cost lowers the margin, keeps a spike, and changes nothing else a reason looks at. */
  lemma CostFacts(input: Input, policy: Policy, cost: int)
    requires input.revenue.amountMinor > 0 && cost >= input.currentVariableCost.amountMinor
    ensures var raised, revenue := WithCost(input, cost), input.revenue.amountMinor;
            && TruncDiv((revenue - cost) * 10000, revenue) <= TruncDiv((revenue - input.currentVariableCost.amountMinor) * 10000, revenue)
            && (Spike(input, policy) ==> Spike(raised, policy))
            && HighValue(input, policy) == HighValue(raised, policy)
  {
    var revenue, approved, current := input.revenue.amountMinor, input.approvedVariableCost.amountMinor, input.currentVariableCost.amountMinor;
    TruncDivMonotone((revenue - cost) * 10000, (revenue - current) * 10000, revenue);
    if approved > 0 { TruncDivMonotone((current - approved) * 10000, (cost - approved) * 10000, approved); }
    hide TruncDiv;
  }

  lemma MoreApplies(input: Input, raised: Input, policy: Policy, margin: int, lower: int)
    requires raised == WithCost(input, raised.currentVariableCost.amountMinor) && lower <= margin
    requires (Spike(input, policy) ==> Spike(raised, policy)) && HighValue(input, policy) == HighValue(raised, policy)
    ensures forall r :: r in Reasons(input, policy, margin) ==> r in Reasons(raised, policy, lower)
    ensures forall r :: r in Reasons(raised, policy, lower) && r !in Reasons(input, policy, margin) ==> r == NegativeMargin || r == CostSpike
  {
    hide Spike, Reasons, HighValue;
    forall r
      ensures r in Reasons(input, policy, margin) ==> r in Reasons(raised, policy, lower)
      ensures r in Reasons(raised, policy, lower) && r !in Reasons(input, policy, margin) ==> r == NegativeMargin || r == CostSpike
    {
      ReasonGiven(r, input, policy, margin);
      ReasonGiven(r, raised, policy, lower);
    }
  }

  // ---- ready orders ----

  /**
   An order is ready exactly when every check passes; in amounts: it loses less than one basis point of
   the revenue and, for a limit of at least zero, its cost rose by less than limit + 1 basis points.
   */
  lemma ReadyExactly(input: Input, policy: Policy)
    requires policy.maxCostIncreaseBasisPoints >= 0
    ensures DecisionOf(input, policy).Ok? && DecisionOf(input, policy).value.status == Ready <==>
      (var revenue, approved, current := input.revenue.amountMinor, input.approvedVariableCost.amountMinor, input.currentVariableCost.amountMinor;
       && input.revenue.currency == input.currentVariableCost.currency && revenue > 0
       && !input.alreadySubmitted && input.paymentReady && input.shippingCountry in input.allowedCountries
       && input.addressValid && input.variantAvailable && input.designPresent && input.mappingCount == 1
       && revenue <= policy.maxOrderAmountMinor && input.itemCount <= policy.maxItemCount
       && (current - revenue) * 10000 < revenue
       && (approved > 0 ==> (current - approved) * 10000 < (policy.maxCostIncreaseBasisPoints + 1) * approved))
  {
    var d := DecisionOf(input, policy);
    if d.Ok? {
      StatusExactly(input, policy);
      SpikeExactly(input, policy);
    }
    hide TruncDiv, Spike, StatusOf, Reasons;
  }
}

/** Which generation failures may be retried, and after how long (src/jobs/retry-policy.ts). */
module RetryPolicy {
  import opened Lease

  /** The parts of a thrown value the policy looks at. */
  datatype Failure = Failure(schemaInvalid: bool, status: Option<int>, code: Option<string>, name: Option<string>)

  datatype Disposition = Disposition(retryable: bool, code: string)

  const TRANSIENT_NAMES := {"APIConnectionError", "APIConnectionTimeoutError", "AbortError", "ECONNRESET", "ETIMEDOUT"}
  const TRANSIENT_CODES := {"ECONNRESET", "ETIMEDOUT", "EAI_AGAIN"}

  function DecimalText(n: nat): string {
    if n < 10 then [('0' as int + n) as char] else DecimalText(n / 10) + [('0' as int + n % 10) as char]
  }

  function Classify(f: Failure): Disposition {
    if f.schemaInvalid then Disposition(false, "SCHEMA_VALIDATION_FAILED")
    else if f.status.Some? && (f.status.value in {408, 409, 429} || f.status.value >= 500) then
      Disposition(true, "OPENAI_HTTP_" + DecimalText(f.status.value))
    else if (f.name.Some? && f.name.value in TRANSIENT_NAMES) || (f.code.Some? && f.code.value in TRANSIENT_CODES) then
      Disposition(true, if f.code.Some? then f.code.value else f.name.value)
    else if f.status.Some? && f.status.value >= 400 then Disposition(false, "OPENAI_HTTP_" + DecimalText(f.status.value))
    else Disposition(false, "GENERATION_FAILED")
  }

  // ---- the policy, written out ----

  predicate HttpTransient(f: Failure) {
    f.status.Some? && (f.status.value == 408 || f.status.value == 409 || f.status.value == 429 || f.status.value >= 500)
  }

  predicate ConnectionTransient(f: Failure) {
    || f.name == Some("APIConnectionError") || f.name == Some("APIConnectionTimeoutError") || f.name == Some("AbortError")
    || f.name == Some("ECONNRESET") || f.name == Some("ETIMEDOUT")
    || f.code == Some("ECONNRESET") || f.code == Some("ETIMEDOUT") || f.code == Some("EAI_AGAIN")
  }

  /** Only trouble that may pass is tried again; an answer against the schema is final, whatever else it carries. */
  predicate Transient(f: Failure) {
    !f.schemaInvalid && (HttpTransient(f) || ConnectionTransient(f))
  }

  function DigitsValue(s: string): int {
    if s == "" then 0 else 10 * DigitsValue(s[..|s| - 1]) + (s[|s| - 1] as int - '0' as int)
  }

  /** The decimal digits of n, without leading zeros. */
  predicate IsDecimal(s: string, n: int) {
    && s != "" && (forall i :: 0 <= i < |s| ==> '0' <= s[i] <= '9') && (|s| > 1 ==> s[0] != '0') && DigitsValue(s) == n
  }

  lemma {:induction false} DecimalIsDecimal(n: nat)
    ensures IsDecimal(DecimalText(n), n) && (n > 0 ==> DecimalText(n)[0] != '0')
  {
    var last := ('0' as int + n % 10) as char;
    if n >= 10 {
      DecimalIsDecimal(n / 10);
      var s := DecimalText(n);
      assert s == DecimalText(n / 10) + [last] && s[..|s| - 1] == DecimalText(n / 10);
    } else {
      assert DecimalText(n)[..0] == "";
    }
  }

  /** "OPENAI_HTTP_" and the status. */
  predicate IsHttpCode(code: string, status: int) {
    |code| >= 12 && code[..12] == "OPENAI_HTTP_" && IsDecimal(code[12..], status)
  }

  /** The code a failure is recorded with. */
  predicate IsFailureCode(code: string, f: Failure) {
    if f.schemaInvalid then code == "SCHEMA_VALIDATION_FAILED"
    else if HttpTransient(f) then IsHttpCode(code, f.status.value)
    else if ConnectionTransient(f) then Some(code) == if f.code.Some? then f.code else f.name
    else if f.status.Some? && f.status.value >= 400 then IsHttpCode(code, f.status.value)
    else code == "GENERATION_FAILED"
  }

  lemma ClassifiedExactly(f: Failure)
    ensures Classify(f).retryable <==> Transient(f)
    ensures IsFailureCode(Classify(f).code, f)
  {
    if f.status.Some? && f.status.value >= 400 {
      var digits := DecimalText(f.status.value);
      DecimalIsDecimal(f.status.value);
      assert ("OPENAI_HTTP_" + digits)[12..] == digits;
    }
    hide IsDecimal, DecimalText;
  }

  /** What a ConflictError or NotFoundError of the brand store looks like to the policy. */
  const DOMAIN_ERROR := Failure(false, None, Some("INVALID_REVISION_STATE"), Some("Error"))

  function Pow2(n: nat): nat { if n == 0 then 1 else 2 * Pow2(n - 1) }

  function Min(a: int, b: int): int { if a < b then a else b }

  function BaseMs(attempt: int): int {
    Min(5_000 * Pow2(if attempt <= 1 then 0 else attempt - 1), 300_000)
  }

  /** `random` is the value drawn from [0, 1). */
  function BackoffMs(attempt: int, random: real): int {
    Rounded(Jittered(BaseMs(attempt) as real, random))
  }

  /** Between 80 % and 120 % of the base. */
  function Jittered(base: real, random: real): real { base * (0.8 + random * 0.4) }

  /** Math.round */
  function Rounded(x: real): int { (x + 0.5).Floor }

  lemma {:induction false} Pow2Grows(n: nat, m: nat)
    requires n <= m
    ensures 1 <= Pow2(n) <= Pow2(m)
    decreases m
  {
    if n < m { Pow2Grows(n, m - 1); } else if n > 0 { Pow2Grows(n - 1, m - 1); }
  }

  lemma JitterBounds(a: real, b: real, random: real)
    requires 5_000.0 <= a <= b <= 300_000.0 && 0.0 <= random < 1.0
    ensures 4_000.0 <= Jittered(a, random) <= Jittered(b, random) < 360_000.0
  {
    var f := 0.8 + random * 0.4;
    assert 0.8 <= f < 1.2;
    ScaleBounds(a, b, f);
  }

  lemma ScaleBounds(a: real, b: real, f: real)
    requires 5_000.0 <= a <= b <= 300_000.0 && 0.8 <= f < 1.2
    ensures 4_000.0 <= a * f <= b * f < 360_000.0
  {
    assert 5_000.0 * f <= a * f;
    assert b * f <= 300_000.0 * f;
  }

  /** 5 s, doubled with every attempt after the first, up to 5 min; jittered by a fifth either way and rounded. */
  predicate IsDelay(delay: int, attempt: int, random: real) {
    var base :=
      if attempt <= 1 then 5_000.0 else if attempt == 2 then 10_000.0 else if attempt == 3 then 20_000.0
      else if attempt == 4 then 40_000.0 else if attempt == 5 then 80_000.0 else if attempt == 6 then 160_000.0 else 300_000.0;
    delay as real - 0.5 <= base * (0.8 + 0.4 * random) < delay as real + 0.5
  }

  lemma BackoffIsDelay(attempt: int, random: real)
    ensures IsDelay(BackoffMs(attempt, random), attempt, random)
  {
    BaseIs(attempt);
    hide Pow2, BaseMs;
    assert random * 0.4 == 0.4 * random;
  }

  lemma BaseIs(attempt: int)
    ensures BaseMs(attempt) == if attempt <= 1 then 5_000 else if attempt == 2 then 10_000 else if attempt == 3 then 20_000
                               else if attempt == 4 then 40_000 else if attempt == 5 then 80_000 else if attempt == 6 then 160_000 else 300_000
  {
    assert Pow2(1) == 2 && Pow2(2) == 4 && Pow2(3) == 8;
    assert Pow2(4) == 16 && Pow2(5) == 32 && Pow2(6) == 64;
    if attempt >= 7 { Pow2Grows(6, attempt - 1); }
  }

  /** Every delay is between 4 s and 6 min, and a later attempt with the same draw never waits less. */
  lemma BackoffBounds(attempt: int, later: int, random: real)
    requires 0.0 <= random < 1.0 && attempt <= later
    ensures 4_000 <= BackoffMs(attempt, random) <= BackoffMs(later, random) <= 360_000
  {
    Pow2Grows(if attempt <= 1 then 0 else attempt - 1, if later <= 1 then 0 else later - 1);
    hide Pow2;
    assert 5_000 <= BaseMs(attempt) <= BaseMs(later) <= 300_000;
    hide BaseMs, Jittered, Rounded;
    JitterBounds(BaseMs(attempt) as real, BaseMs(later) as real, random);
    RoundedMonotone(Jittered(BaseMs(attempt) as real, random), Jittered(BaseMs(later) as real, random));
  }

  lemma RoundedMonotone(x: real, y: real)
    requires 4_000.0 <= x <= y < 360_000.0
    ensures 4_000 <= Rounded(x) <= Rounded(y) <= 360_000
  {
  }
}

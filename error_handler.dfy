/** The error handler: a bounded retry loop with capped exponential backoff,
    and a keyword classifier of error messages with its retryability table.
    The retry loop never consults the classifier; only an explicit
    `RetryableError` whose flag is false ends it before the attempt budget. */
module ErrorHandling {
  import opened Types

  datatype RetryConfig = RetryConfig(
    maxRetries: nat,
    baseDelayMs: nat,
    maxDelayMs: nat,
    backoffMultiplier: nat)

  const DefaultRetryConfig := RetryConfig(2, 1000, 10000, 2)

  function Min(a: nat, b: nat): nat {
    if a <= b then a else b
  }

  function Pow(base: nat, exp: nat): nat {
    if exp == 0 then 1 else base * Pow(base, exp - 1)
  }

  /** An outcome after which no further attempt is made, whatever the budget:
      a success, or a `RetryableError` raised with `retryable = false`. */
  predicate EndsRetrying<T>(o: Outcome<T>) {
    o.Ok? || (o.error.RetryableError? && !o.error.retryable)
  }

  /** The first attempt index from `k` on that ends retrying, or `last` when
      none before it does. */
  function FirstStop<T>(op: nat -> Outcome<T>, last: nat, k: nat): (n: nat)
    requires k <= last
    ensures k <= n <= last
    ensures n < last ==> EndsRetrying(op(n))
    ensures forall j :: k <= j < n ==> !EndsRetrying(op(j))
    decreases last - k
  {
    if k == last || EndsRetrying(op(k)) then k else FirstStop(op, last, k + 1)
  }

  /** How many times `withRetry` calls an operation whose `k`-th call has
      outcome `op(k)`. */
  function AttemptCount<T>(op: nat -> Outcome<T>, config: RetryConfig): (n: nat)
    ensures 1 <= n <= config.maxRetries + 1
  {
    FirstStop(op, config.maxRetries, 0) + 1
  }

  /** What `withRetry` returns or throws: the outcome of its last call. */
  function RetryOutcome<T>(op: nat -> Outcome<T>, config: RetryConfig): Outcome<T> {
    op(AttemptCount(op, config) - 1)
  }

  /** The delay `withRetry` holds before its `k`-th sleep: the base delay, then
      each time the previous one times the multiplier, capped at the maximum. */
  function DelayAt(config: RetryConfig, k: nat): nat {
    if k == 0 then config.baseDelayMs
    else Min(DelayAt(config, k - 1) * config.backoffMultiplier, config.maxDelayMs)
  }

  /** The durations of the first `n` sleeps, in order. */
  function Backoff(config: RetryConfig, n: nat): seq<nat> {
    if n == 0 then [] else Backoff(config, n - 1) + [DelayAt(config, n - 1)]
  }

  /** Runs the operation until it succeeds, raises an explicitly non-retryable
      error, or has been called `maxRetries + 1` times, sleeping between
      attempts. Returns the final outcome (the success value, or the last
      error re-thrown unchanged), the number of calls and the sleeps taken. */
  method WithRetry<T>(op: nat -> Outcome<T>, config: RetryConfig)
    returns (r: Outcome<T>, calls: nat, sleeps: seq<nat>)
    ensures calls == AttemptCount(op, config)
    ensures r == RetryOutcome(op, config)
    ensures sleeps == Backoff(config, calls - 1)
  {
    var lastError := NonError;
    var delay := config.baseDelayMs;
    sleeps := [];
    var attempt := 0;
    while attempt <= config.maxRetries
      invariant attempt <= config.maxRetries
      invariant forall j :: 0 <= j < attempt ==> !EndsRetrying(op(j))
      invariant delay == DelayAt(config, attempt)
      invariant sleeps == Backoff(config, attempt)
      decreases config.maxRetries - attempt
    {
      var outcome := op(attempt);
      if outcome.Ok? {
        FirstStopAt(op, config.maxRetries, attempt);
        return outcome, attempt + 1, sleeps;
      }
      lastError := outcome.error;
      if attempt == config.maxRetries {
        break;
      }
      if outcome.error.RetryableError? && !outcome.error.retryable {
        break;
      }
      sleeps := sleeps + [delay];
      delay := Min(delay * config.backoffMultiplier, config.maxDelayMs);
      attempt := attempt + 1;
    }
    FirstStopAt(op, config.maxRetries, attempt);
    r, calls := Err(lastError), attempt + 1;
  }

  /** The loop stops at `i` when every earlier attempt went on retrying and
      attempt `i` ends retrying or is the last. */
  lemma FirstStopAt<T>(op: nat -> Outcome<T>, last: nat, i: nat)
    requires i <= last && (i == last || EndsRetrying(op(i)))
    requires forall j :: 0 <= j < i ==> !EndsRetrying(op(j))
    ensures FirstStop(op, last, 0) == i
  {
  }

  /** An operation that keeps failing with errors that do not end retrying is
      called exactly `maxRetries + 1` times, and its last error is re-thrown. */
  lemma AlwaysFailingExhaustsBudget<T>(op: nat -> Outcome<T>, config: RetryConfig)
    requires forall k :: !EndsRetrying(op(k))
    ensures AttemptCount(op, config) == config.maxRetries + 1
    ensures RetryOutcome(op, config) == op(config.maxRetries)
    ensures RetryOutcome(op, config).Err?
  {
  }

  /** The first success is returned, after exactly as many calls as its index
      plus one, provided the failures before it did not end retrying. */
  lemma FirstSuccessReturned<T>(op: nat -> Outcome<T>, config: RetryConfig, i: nat)
    requires i <= config.maxRetries && op(i).Ok?
    requires forall j :: 0 <= j < i ==> !EndsRetrying(op(j))
    ensures AttemptCount(op, config) == i + 1
    ensures RetryOutcome(op, config) == op(i)
  {
  }

  /** A `RetryableError` with `retryable = false` stops the loop after the
      attempt that raised it, and is re-thrown. */
  lemma ExplicitNonRetryableStops<T>(op: nat -> Outcome<T>, config: RetryConfig, i: nat)
    requires i <= config.maxRetries
    requires op(i).Err? && op(i).error.RetryableError? && !op(i).error.retryable
    requires forall j :: 0 <= j < i ==> !EndsRetrying(op(j))
    ensures AttemptCount(op, config) == i + 1
    ensures RetryOutcome(op, config) == op(i)
  {
  }

  lemma {:induction false} FirstStopDependsOnlyOnStops<T, U>(
    op1: nat -> Outcome<T>, op2: nat -> Outcome<U>, last: nat, k: nat)
    requires k <= last
    requires forall j :: k <= j <= last ==> EndsRetrying(op1(j)) == EndsRetrying(op2(j))
    ensures FirstStop(op1, last, k) == FirstStop(op2, last, k)
    decreases last - k
  {
    if k < last && !EndsRetrying(op1(k)) {
      FirstStopDependsOnlyOnStops(op1, op2, last, k + 1);
    }
  }

  /** The number of calls depends only on which attempts succeed or raise an
      explicitly non-retryable error: error messages, and therefore the
      classification of `ClassifyError`, play no part. */
  lemma AttemptCountIgnoresMessages<T, U>(
    op1: nat -> Outcome<T>, op2: nat -> Outcome<U>, config: RetryConfig)
    requires forall j :: EndsRetrying(op1(j)) == EndsRetrying(op2(j))
    ensures AttemptCount(op1, config) == AttemptCount(op2, config)
  {
    FirstStopDependsOnlyOnStops(op1, op2, config.maxRetries, 0);
  }

  lemma {:induction false} BackoffLength(config: RetryConfig, n: nat)
    ensures |Backoff(config, n)| == n
    ensures forall k :: 0 <= k < n ==> Backoff(config, n)[k] == DelayAt(config, k)
  {
    if n > 0 {
      BackoffLength(config, n - 1);
    }
  }

  /** Capping before or after one more multiplication by `m >= 1` is the same. */
  lemma CapThenScale(x: nat, m: nat, cap: nat)
    requires m >= 1
    ensures Min(Min(x, cap) * m, cap) == Min(x * m, cap)
  {
    if x > cap {
      assert cap * m >= cap * 1;
      assert x * m >= x * 1;
    }
  }

  /** With a base no larger than the cap and a multiplier of at least one, the
      `k`-th sleep is `min(base * multiplier^k, max)`. */
  lemma {:induction false} DelayClosedForm(config: RetryConfig, k: nat)
    requires config.baseDelayMs <= config.maxDelayMs && config.backoffMultiplier >= 1
    ensures DelayAt(config, k) == Min(config.baseDelayMs * Pow(config.backoffMultiplier, k), config.maxDelayMs)
  {
    var b, m, cap := config.baseDelayMs, config.backoffMultiplier, config.maxDelayMs;
    if k > 0 {
      DelayClosedForm(config, k - 1);
      var p := Pow(m, k - 1);
      assert Pow(m, k) == m * p;
      MulRearrange(b, m, p);
      CapThenScale(b * p, m, cap);
    }
  }

  lemma MulRearrange(b: nat, m: nat, p: nat)
    ensures b * (m * p) == (b * p) * m
  {
  }

  lemma DefaultPolicyBackoff()
    ensures DefaultRetryConfig.maxRetries == 2 && DefaultRetryConfig.baseDelayMs == 1000
    ensures DefaultRetryConfig.maxDelayMs == 10000 && DefaultRetryConfig.backoffMultiplier == 2
    ensures Backoff(DefaultRetryConfig, 2) == [1000, 2000]
  {
  }

  /** The cases exercised for `withRetry`: constant success; two failures then
      success with three retries allowed; persistent failure with two retries
      allowed; an explicitly non-retryable error under the default policy. */
  lemma RetryExamples(e1: Thrown, e2: Thrown)
    requires !e1.RetryableError? && !e2.RetryableError?
    ensures AttemptCount((k: nat) => Ok("success"), DefaultRetryConfig) == 1
    ensures var op := (k: nat) => if k == 0 then Err(e1) else if k == 1 then Err(e2) else Ok("success");
            AttemptCount(op, RetryConfig(3, 10, 100, 2)) == 3 && RetryOutcome(op, RetryConfig(3, 10, 100, 2)) == Ok("success")
    ensures var op := (k: nat) => Outcome<string>.Err(PlainError("Persistent failure"));
            AttemptCount(op, RetryConfig(2, 10, 100, 2)) == 3 && RetryOutcome(op, RetryConfig(2, 10, 100, 2)) == Err(PlainError("Persistent failure"))
    ensures var op := (k: nat) => Outcome<string>.Err(RetryableError("Non-retryable error", false, Validation));
            AttemptCount(op, DefaultRetryConfig) == 1 && RetryOutcome(op, DefaultRetryConfig) == op(0)
  {
    var fail2 := (k: nat) => if k == 0 then Err(e1) else if k == 1 then Err(e2) else Ok("success");
    FirstSuccessReturned(fail2, RetryConfig(3, 10, 100, 2), 2);
    var persistent := (k: nat) => Outcome<string>.Err(PlainError("Persistent failure"));
    AlwaysFailingExhaustsBudget(persistent, RetryConfig(2, 10, 100, 2));
  }

  // Classification.

  /** The keyword family of each error type, tried in priority order. */
  function Keywords(t: ErrorType): seq<string> {
    match t
    case Validation => ["validation", "invalid"]
    case S3 => ["s3", "bucket", "aws"]
    case ImageProcessing => ["sharp", "image", "format"]
    case Network => ["network", "timeout", "connection"]
    case Unknown => []
  }

  function Priority(t: ErrorType): nat {
    match t
    case Validation => 0
    case S3 => 1
    case ImageProcessing => 2
    case Network => 3
    case Unknown => 4
  }

  predicate Mentions(message: string, t: ErrorType) {
    exists w :: w in Keywords(t) && Contains(message, w)
  }

  /** Classifies an error by its message, ignoring case: the first family, in
      priority order, that has a keyword in the message; `Unknown` if none. */
  function ClassifyError(message: string): (t: ErrorType)
    ensures t != Unknown ==> Mentions(Lower(message), t)
    ensures forall u :: Priority(u) < Priority(t) ==> !Mentions(Lower(message), u)
  {
    var m := Lower(message);
    if Contains(m, "validation") || Contains(m, "invalid") then Validation
    else if Contains(m, "s3") || Contains(m, "bucket") || Contains(m, "aws") then S3
    else if Contains(m, "sharp") || Contains(m, "image") || Contains(m, "format") then ImageProcessing
    else if Contains(m, "network") || Contains(m, "timeout") || Contains(m, "connection") then Network
    else Unknown
  }

  /** The converse of `ClassifyError`'s contract: a type that is mentioned (or
      is `Unknown`) while no type of higher priority is mentioned is the
      classification, so that contract determines the result. */
  lemma ClassificationDeterminedByMentions(message: string, t: ErrorType)
    requires t != Unknown ==> Mentions(Lower(message), t)
    requires forall u :: Priority(u) < Priority(t) ==> !Mentions(Lower(message), u)
    ensures ClassifyError(message) == t
  {
    var r := ClassifyError(message);
    assert Priority(r) == Priority(t);
  }

  /** Only the letters' case-free form matters to the classification. */
  lemma ClassificationIgnoresCase(message: string)
    ensures ClassifyError(Lower(message)) == ClassifyError(message)
  {
    LowerIdempotent(message);
  }

  /** Retryable unless classified as a validation or image-processing error. */
  function IsRetryableError(message: string): (retry: bool)
    ensures !retry <==> ClassifyError(message) == Validation || ClassifyError(message) == ImageProcessing
  {
    match ClassifyError(message)
    case Validation => false
    case S3 => true
    case ImageProcessing => false
    case Network => true
    case Unknown => true
  }

  lemma RetryabilityFollowsClassification(message: string, t: ErrorType)
    requires ClassifyError(message) == t
    ensures IsRetryableError(message) <==> t != Validation && t != ImageProcessing
  {
  }

  /** `withRetry` retries an error that `IsRetryableError` would refuse: a
      plain error whose message reads as a validation failure is still tried
      `maxRetries + 1` times. */
  lemma ClassifiedNonRetryableStillRetried<T>(config: RetryConfig, message: string)
    requires !IsRetryableError(message)
    ensures var op := (k: nat) => Outcome<T>.Err(PlainError(message));
            AttemptCount(op, config) == config.maxRetries + 1
  {
    var op := (k: nat) => Outcome<T>.Err(PlainError(message));
    AlwaysFailingExhaustsBudget(op, config);
  }

  /** `sub` cannot occur in `s` when the only place its `j`-th character
      appears in `s` (if anywhere) is index `q`, and no occurrence starts at `q - j`. */
  lemma AbsentSubstring(s: string, sub: string, j: nat, q: int)
    requires j < |sub|
    requires forall p :: 0 <= p < |s| && s[p] == sub[j] ==> p == q
    requires !OccursAt(s, sub, q - j)
    ensures !Contains(s, sub)
  {
    if Contains(s, sub) {
      var i :| 0 <= i <= |s| && OccursAt(s, sub, i);
      OccurrenceCharAt(s, sub, i, j);
      assert false;
    }
  }

  lemma OccurrenceCharAt(s: string, sub: string, i: int, j: int)
    ensures OccursAt(s, sub, i) && 0 <= j < |sub| ==> s[i + j] == sub[j]
  {
    if OccursAt(s, sub, i) && 0 <= j < |sub| {
      assert s[i..i + |sub|][j] == s[i + j];
    }
  }

  // The classifications exercised for `classifyError` and `isRetryableError`,
  // for any message whose lower-cased form is the one exercised. Each keyword
  // family of higher priority is shown absent, the family's own keyword
  // present, then `ClassificationDeterminedByMentions` fixes the result.

  /** A message without the letter `v` mentions no validation keyword. */
  lemma LacksValidationLetters(low: string)
    requires forall p :: 0 <= p < |low| ==> low[p] != 'v'
    ensures !Mentions(low, Validation)
  {
    AbsentSubstring(low, "validation", 0, -1);
    AbsentSubstring(low, "invalid", 2, -1);
  }

  /** A message without the letters `3`, `b` and `w` mentions no storage keyword. */
  lemma LacksS3Letters(low: string)
    requires forall p :: 0 <= p < |low| ==> low[p] != '3' && low[p] != 'b' && low[p] != 'w'
    ensures !Mentions(low, S3)
  {
    AbsentSubstring(low, "s3", 1, -1);
    AbsentSubstring(low, "bucket", 0, -1);
    AbsentSubstring(low, "aws", 1, -1);
  }

  lemma ValidationMessageExample(msg: string)
    requires Lower(msg) == "invalid input validation failed"
    ensures ClassifyError(msg) == Validation
    ensures !IsRetryableError(msg)
  {
    assert OccursAt(Lower(msg), "invalid", 0);
    assert Contains(Lower(msg), "invalid");
    ClassificationDeterminedByMentions(msg, Validation);
    RetryabilityFollowsClassification(msg, Validation);
  }

  lemma S3MessageExample(msg: string)
    requires Lower(msg) == "s3 bucket access denied"
    ensures ClassifyError(msg) == S3
    ensures IsRetryableError(msg)
  {
    LacksValidationLetters(Lower(msg));
    assert OccursAt(Lower(msg), "s3", 0);
    assert Contains(Lower(msg), "s3");
    ClassificationDeterminedByMentions(msg, S3);
    RetryabilityFollowsClassification(msg, S3);
  }

  lemma ImageMessageExample(msg: string)
    requires Lower(msg) == "sharp image format not supported"
    ensures ClassifyError(msg) == ImageProcessing
    ensures !IsRetryableError(msg)
  {
    LacksValidationLetters(Lower(msg));
    LacksS3Letters(Lower(msg));
    assert OccursAt(Lower(msg), "sharp", 0);
    assert Contains(Lower(msg), "sharp");
    ClassificationDeterminedByMentions(msg, ImageProcessing);
    RetryabilityFollowsClassification(msg, ImageProcessing);
  }

  lemma NetworkMessageExample(msg: string)
    requires Lower(msg) == "network timeout connection failed"
    ensures ClassifyError(msg) == Network
    ensures IsRetryableError(msg)
  {
    LacksValidationLetters(Lower(msg));
    NetworkMessageLacksS3(Lower(msg));
    NetworkMessageLacksImage(Lower(msg));
    assert OccursAt(Lower(msg), "network", 0);
    assert Contains(Lower(msg), "network");
    ClassificationDeterminedByMentions(msg, Network);
    RetryabilityFollowsClassification(msg, Network);
  }

  lemma NetworkMessageLacksS3(low: string)
    requires low == "network timeout connection failed"
    ensures !Mentions(low, S3)
  {
    AbsentSubstring(low, "s3", 0, -1);
    AbsentSubstring(low, "bucket", 0, -1);
    AbsentSubstring(low, "aws", 2, -1);
  }

  lemma NetworkMessageLacksImage(low: string)
    requires low == "network timeout connection failed"
    ensures !Mentions(low, ImageProcessing)
  {
    AbsentSubstring(low, "sharp", 0, -1);
    AbsentSubstring(low, "image", 3, -1);
    assert low[27] == 'f';
    assert low[27..33][1] != 'o';
    AbsentSubstring(low, "format", 0, 27);
  }

  lemma UnknownMessageExample(msg: string)
    requires Lower(msg) == "some random error"
    ensures ClassifyError(msg) == Unknown
    ensures IsRetryableError(msg)
  {
    LacksValidationLetters(Lower(msg));
    LacksS3Letters(Lower(msg));
    UnknownMessageLacksImage(Lower(msg));
    UnknownMessageLacksNetwork(Lower(msg));
    ClassificationDeterminedByMentions(msg, Unknown);
    RetryabilityFollowsClassification(msg, Unknown);
  }

  lemma UnknownMessageLacksImage(low: string)
    requires low == "some random error"
    ensures !Mentions(low, ImageProcessing)
  {
    AbsentSubstring(low, "sharp", 1, -1);
    AbsentSubstring(low, "image", 0, -1);
    AbsentSubstring(low, "format", 0, -1);
  }

  lemma UnknownMessageLacksNetwork(low: string)
    requires low == "some random error"
    ensures !Mentions(low, Network)
  {
    AbsentSubstring(low, "network", 2, -1);
    AbsentSubstring(low, "timeout", 0, -1);
    AbsentSubstring(low, "connection", 0, -1);
  }
}

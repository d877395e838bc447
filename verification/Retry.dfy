/** The bounded retry loop around one provider operation. */
module Retry {
  import opened Common
  import opened CallProtocol

  datatype Profile = ModelReadGeneration | ClaudePolish | NotionReadQuery | NotionCreate

  datatype Category =
    | Connection | Timeout | TransientProviderError | RateLimit
    | Authentication | Configuration | SchemaFailure | OutputContract | ProviderError
    | ProviderCallUncertain | ProviderPartialResponse | LocalBudget

  predicate RetryableCategory(c: Category) {
    c.Connection? || c.Timeout? || c.TransientProviderError? || c.RateLimit?
  }

  datatype Policy = Policy(profile: Profile, maxAttempts: int, baseDelay: real, maxDelay: real, jitter: real,
                           deadline: real, allowRetry: bool)
  {
    /** What construction accepts. */
    predicate Valid() {
      && 1 <= maxAttempts <= MAX_PROVIDER_ATTEMPTS
      && 0.0 <= baseDelay <= maxDelay
      && 0.0 <= jitter <= 1.0
      && deadline > 0.0
      && (profile.NotionCreate? ==> !allowRetry && maxAttempts == 1)
    }
  }

  const MAX_PROVIDER_ATTEMPTS := 10

  datatype Result<T> = Value(value: T) | Failure(category: Category, partial: bool)

  /** One run of the operation and everything read from outside while deciding about the next:
      clock readings, the retry-after header, the random source and the remaining run budget. */
  datatype Trial<T> = Trial(result: Result<T>, finished: real, retryAfter: Option<real>, random: real,
                            budgetRemaining: Option<real>)

  datatype Stop = Completed | PartialContent | NonRetryable | MaxAttempts | DeadlineExhausted | RunBudgetExhausted

  // ---------- Delays ----------

  function Pow2(n: nat): (p: nat)
    ensures p >= 1
  {
    if n == 0 then 1 else 2 * Pow2(n - 1)
  }

  function MinReal(a: real, b: real): real {
    if a <= b then a else b
  }

  function MaxReal(a: real, b: real): real {
    if a >= b then a else b
  }

  function BackoffBase(p: Policy, attempt: nat): real
    requires attempt >= 1
  {
    MinReal(p.maxDelay, p.baseDelay * Pow2(attempt - 1) as real)
  }

  function Backoff(p: Policy, attempt: nat, random: real): real
    requires attempt >= 1
  {
    MaxReal(0.0, BackoffBase(p, attempt) * Multiplier(random, p.jitter))
  }

  function Delay<T>(p: Policy, trial: Trial<T>, attempt: nat): real
    requires attempt >= 1
  {
    match trial.retryAfter
    case Some(seconds) => MaxReal(0.0, seconds)
    case None => Backoff(p, attempt, trial.random)
  }

  lemma ScaleBetween(base: real, low: real, m: real, high: real)
    requires 0.0 <= base && low <= m <= high
    ensures base * low <= base * m <= base * high
  {
    assert base * (m - low) >= 0.0;
    assert base * (high - m) >= 0.0;
  }

  lemma ScaledBounded(base: real, low: real, m: real, high: real)
    requires 0.0 <= base && 0.0 <= low <= m <= high
    ensures 0.0 <= base * low <= MaxReal(0.0, base * m) <= base * high
  {
    ScaleBetween(base, 0.0, low, m);
    ScaleBetween(base, low, m, high);
  }

  function Multiplier(random: real, jitter: real): real {
    1.0 + (MinReal(1.0, MaxReal(0.0, random)) * 2.0 - 1.0) * jitter
  }

  lemma JitterBounded(random: real, jitter: real)
    requires 0.0 <= jitter
    ensures 1.0 - jitter <= Multiplier(random, jitter) <= 1.0 + jitter
  {
    var r := MinReal(1.0, MaxReal(0.0, random)) * 2.0 - 1.0;
    ScaleBetween(jitter, -1.0, r, 1.0);
    assert jitter * r == r * jitter;
  }

  lemma BaseBounded(p: Policy, attempt: nat)
    requires p.Valid() && attempt >= 1
    ensures 0.0 <= BackoffBase(p, attempt) <= p.maxDelay
  {
    ScaleBetween(p.baseDelay, 0.0, Pow2(attempt - 1) as real, Pow2(attempt - 1) as real);
  }

  /** Jitter stays within its ratio on both sides of a base that never exceeds the configured maximum. */
  lemma BackoffBounded(p: Policy, attempt: nat, random: real)
    requires p.Valid() && attempt >= 1
    ensures BackoffBase(p, attempt) <= p.maxDelay
    ensures 0.0 <= BackoffBase(p, attempt) * (1.0 - p.jitter) <= Backoff(p, attempt, random)
    ensures Backoff(p, attempt, random) <= BackoffBase(p, attempt) * (1.0 + p.jitter)
  {
    BaseBounded(p, attempt);
    JitterBounded(random, p.jitter);
    ScaledBounded(BackoffBase(p, attempt), 1.0 - p.jitter, Multiplier(random, p.jitter), 1.0 + p.jitter);
  }

  lemma Doubled(base: real, limit: real, p: nat)
    requires 0.0 <= base <= limit
    ensures MinReal(limit, base * (2 * p) as real) == MinReal(limit, 2.0 * MinReal(limit, base * p as real))
  {
    assert (2 * p) as real == 2.0 * p as real;
    assert base * (2.0 * p as real) == 2.0 * (base * p as real);
  }

  /** The wait before jitter begins with the configured one and doubles up to the configured maximum. */
  lemma BackoffDoubles(p: Policy, attempt: nat)
    requires p.Valid() && attempt >= 1
    ensures BackoffBase(p, 1) == p.baseDelay
    ensures BackoffBase(p, attempt + 1) == MinReal(p.maxDelay, 2.0 * BackoffBase(p, attempt))
  {
    Doubled(p.baseDelay, p.maxDelay, Pow2(attempt - 1));
  }

  /** So it never shrinks from one attempt to a later one. */
  lemma {:induction false} BackoffGrows(p: Policy, attempt: nat, later: nat)
    requires p.Valid() && 1 <= attempt <= later
    ensures BackoffBase(p, attempt) <= BackoffBase(p, later)
    decreases later - attempt
  {
    if attempt == later {
    } else {
      BackoffGrows(p, attempt, later - 1);
      BackoffDoubles(p, later - 1);
      BaseBounded(p, later - 1);
    }
  }

  // ---------- Stopping ----------

  function StopBeforeDelay(p: Policy, attempt: int, category: Category, partial: bool, now: real, started: real)
    : Option<Stop>
  {
    if partial then Some(PartialContent)
    else if !p.allowRetry || !RetryableCategory(category) then Some(NonRetryable)
    else if attempt >= p.maxAttempts then Some(MaxAttempts)
    else if now - started >= p.deadline then Some(DeadlineExhausted)
    else None
  }

  function StopForDelay(p: Policy, delay: real, now: real, started: real, budget: Option<real>): Option<Stop> {
    var remaining := p.deadline - (now - started);
    if remaining <= 0.0 || delay >= remaining then Some(DeadlineExhausted)
    else if budget.Some? && (budget.value <= 0.0 || delay >= budget.value) then Some(RunBudgetExhausted)
    else None
  }

  /** Why the loop ends after this trial, or `None` when it sleeps and tries again. */
  function StopAfter<T>(p: Policy, trial: Trial<T>, attempt: nat, started: real): Option<Stop>
    requires attempt >= 1
  {
    if trial.result.Value? then Some(Completed)
    else
      var early := StopBeforeDelay(p, attempt, trial.result.category, trial.result.partial, trial.finished, started);
      if early.Some? then early
      else StopForDelay(p, Delay(p, trial, attempt), trial.finished, started, trial.budgetRemaining)
  }

  predicate GoesOn<T>(p: Policy, trials: seq<Trial<T>>, n: nat, started: real)
    requires 1 <= n <= |trials|
  {
    StopAfter(p, trials[n - 1], n, started).None?
  }

  /** `attempts` is the first trial after which the loop ends, and `stop` says why. */
  predicate EndsAt<T>(p: Policy, trials: seq<Trial<T>>, started: real, attempts: nat, stop: Stop) {
    && 1 <= attempts <= |trials|
    && StopAfter(p, trials[attempts - 1], attempts, started) == Some(stop)
    && forall i | 1 <= i < attempts :: GoesOn(p, trials, i, started)
  }

  /** What one failed or successful run leaves in the report. */
  datatype Entry = Entry(attempt: nat, category: Option<Category>, retryable: bool, partial: bool, delay: real)

  function EntryFor<T>(p: Policy, trial: Trial<T>, attempt: nat, started: real): Entry
    requires attempt >= 1
  {
    match trial.result
    case Value(_) => Entry(attempt, None, false, false, 0.0)
    case Failure(category, partial) =>
      Entry(attempt, Some(category), RetryableCategory(category), partial,
            if StopAfter(p, trial, attempt, started).None? then Delay(p, trial, attempt) else 0.0)
  }

  /** The loop. `trials` holds what each run of the operation would bring; no run is made after the loop ended. */
  method Execute<T>(p: Policy, trials: seq<Trial<T>>, started: real) returns (attempts: nat, stop: Stop, history: seq<Entry>)
    requires p.Valid() && |trials| == p.maxAttempts
    ensures EndsAt(p, trials, started, attempts, stop)
    ensures |history| == attempts
    ensures forall i | 0 <= i < attempts :: history[i] == EntryFor(p, trials[i], i + 1, started)
  {
    history := [];
    assert !GoesOn(p, trials, p.maxAttempts, started);
    for n := 1 to p.maxAttempts + 1
      invariant |history| == n - 1
      invariant forall i | 1 <= i < n :: GoesOn(p, trials, i, started)
      invariant forall i | 0 <= i < n - 1 :: history[i] == EntryFor(p, trials[i], i + 1, started)
    {
      var trial := trials[n - 1];
      if trial.result.Value? {
        history := history + [Entry(n, None, false, false, 0.0)];
        return n, Completed, history;
      }
      var category, partial := trial.result.category, trial.result.partial;
      var reason := StopBeforeDelay(p, n, category, partial, trial.finished, started);
      var delay := 0.0;
      if reason.None? {
        delay := if trial.retryAfter.Some? then MaxReal(0.0, trial.retryAfter.value) else Backoff(p, n, trial.random);
        reason := StopForDelay(p, delay, trial.finished, started, trial.budgetRemaining);
      }
      if reason.Some? {
        history := history + [Entry(n, Some(category), RetryableCategory(category), partial, 0.0)];
        return n, reason.value, history;
      }
      history := history + [Entry(n, Some(category), RetryableCategory(category), partial, delay)];
    }
    assert false;
  }

  // ---------- What the loop guarantees ----------

  /** The end of the loop is unique, so the method's result is determined. */
  lemma EndsOnce<T>(p: Policy, trials: seq<Trial<T>>, started: real, m: nat, stop: Stop, n: nat, stop': Stop)
    requires EndsAt(p, trials, started, m, stop) && EndsAt(p, trials, started, n, stop')
    ensures m == n && stop == stop'
  {
    assert !GoesOn(p, trials, m, started);
    assert !GoesOn(p, trials, n, started);
  }

  /** The wait the provider asked for, or else the base moved within its jitter ratio by the random number. */
  predicate Waits<T>(p: Policy, trial: Trial<T>, base: real, delay: real) {
    match trial.retryAfter
    case Some(seconds) => delay == if seconds < 0.0 then 0.0 else seconds
    case None =>
      && base * (1.0 - p.jitter) <= delay <= base * (1.0 + p.jitter)
      && (trial.random <= 0.0 ==> delay == base * (1.0 - p.jitter))
      && (trial.random >= 1.0 ==> delay == base * (1.0 + p.jitter))
      && (0.0 <= trial.random <= 1.0 ==> delay == base * (1.0 - p.jitter + 2.0 * trial.random * p.jitter))
  }

  /** A failure that may be tried again: of a transient kind, without partial content, and with an attempt left. */
  predicate Repeatable<T>(p: Policy, trial: Trial<T>, attempt: nat) {
    && trial.result.Failure? && !trial.result.partial && p.allowRetry && attempt < p.maxAttempts
    && trial.result.category in {Connection, Timeout, TransientProviderError, RateLimit}
  }

  lemma JitterMeans(random: real, jitter: real)
    ensures random <= 0.0 ==> Multiplier(random, jitter) == 1.0 - jitter
    ensures random >= 1.0 ==> Multiplier(random, jitter) == 1.0 + jitter
    ensures 0.0 <= random <= 1.0 ==> Multiplier(random, jitter) == 1.0 - jitter + 2.0 * random * jitter
  {
    var r := MinReal(1.0, MaxReal(0.0, random)) * 2.0 - 1.0;
    if random <= 0.0 {
      assert r == -1.0;
    } else if random >= 1.0 {
      assert r == 1.0;
    } else {
      assert (random * 2.0 - 1.0) * jitter == 2.0 * random * jitter - jitter;
    }
  }

  lemma BackoffIsProduct(p: Policy, attempt: nat, random: real, m: real)
    requires p.Valid() && attempt >= 1 && m == Multiplier(random, p.jitter)
    ensures Backoff(p, attempt, random) == BackoffBase(p, attempt) * m
  {
    BaseBounded(p, attempt);
    JitterBounded(random, p.jitter);
    ScaleBetween(BackoffBase(p, attempt), 0.0, m, m);
  }

  lemma ProductWaits<T>(p: Policy, trial: Trial<T>, base: real, m: real, delay: real)
    requires trial.retryAfter.None? && delay == base * m
    requires base * (1.0 - p.jitter) <= delay <= base * (1.0 + p.jitter)
    requires trial.random <= 0.0 ==> m == 1.0 - p.jitter
    requires trial.random >= 1.0 ==> m == 1.0 + p.jitter
    requires 0.0 <= trial.random <= 1.0 ==> m == 1.0 - p.jitter + 2.0 * trial.random * p.jitter
    ensures Waits(p, trial, base, delay)
  {
  }

  /** The factor between the base and the wait. */
  lemma Factor(p: Policy, attempt: nat, random: real) returns (m: real)
    requires p.Valid() && attempt >= 1
    ensures Backoff(p, attempt, random) == BackoffBase(p, attempt) * m && 1.0 - p.jitter <= m <= 1.0 + p.jitter
    ensures random <= 0.0 ==> m == 1.0 - p.jitter
    ensures random >= 1.0 ==> m == 1.0 + p.jitter
    ensures 0.0 <= random <= 1.0 ==> m == 1.0 - p.jitter + 2.0 * random * p.jitter
  {
    m := Multiplier(random, p.jitter);
    BackoffIsProduct(p, attempt, random, m);
    JitterBounded(random, p.jitter);
    JitterMeans(random, p.jitter);
  }

  lemma BackoffWaits<T>(p: Policy, trial: Trial<T>, attempt: nat)
    requires p.Valid() && attempt >= 1 && trial.retryAfter.None?
    ensures Waits(p, trial, BackoffBase(p, attempt), Backoff(p, attempt, trial.random))
  {
    var m := Factor(p, attempt, trial.random);
    BaseBounded(p, attempt);
    ScaleBetween(BackoffBase(p, attempt), 1.0 - p.jitter, m, 1.0 + p.jitter);
    ProductWaits(p, trial, BackoffBase(p, attempt), m, BackoffBase(p, attempt) * m);
  }

  lemma DelayWaits<T>(p: Policy, trial: Trial<T>, attempt: nat)
    requires p.Valid() && attempt >= 1
    ensures Waits(p, trial, BackoffBase(p, attempt), Delay(p, trial, attempt)) && Delay(p, trial, attempt) >= 0.0
  {
    if trial.retryAfter.None? {
      BackoffWaits(p, trial, attempt);
      BackoffBounded(p, attempt, trial.random);
    }
  }

  /** There is only one such wait. */
  lemma WaitsOnce<T>(p: Policy, trial: Trial<T>, base: real, delay: real, delay': real)
    requires Waits(p, trial, base, delay) && Waits(p, trial, base, delay')
    ensures delay == delay'
  {
  }

  /** The loop goes on exactly after a repeatable failure whose whole wait fits the deadline and the run budget. */
  lemma ContinuesExactly<T>(p: Policy, trial: Trial<T>, attempt: nat, started: real, delay: real)
    requires p.Valid() && attempt >= 1 && Waits(p, trial, BackoffBase(p, attempt), delay)
    ensures StopAfter(p, trial, attempt, started).None? <==>
              && Repeatable(p, trial, attempt) && trial.finished - started + delay < p.deadline
              && (trial.budgetRemaining.Some? ==> delay < trial.budgetRemaining.value)
  {
    DelayWaits(p, trial, attempt);
    WaitsOnce(p, trial, BackoffBase(p, attempt), delay, Delay(p, trial, attempt));
  }

  /** Which reason is given for the end, decided by the last run and the wait it would have called for. */
  predicate StopIs<T>(p: Policy, last: Trial<T>, attempts: nat, started: real, delay: real, stop: Stop) {
    var f := last.result.Failure?;
    var transient := f && last.result.category in {Connection, Timeout, TransientProviderError, RateLimit} && p.allowRetry;
    var late := last.finished - started + delay >= p.deadline;
    && (stop.Completed? <==> !f)
    && (stop.PartialContent? <==> f && last.result.partial)
    && (stop.NonRetryable? <==> f && !last.result.partial && !transient)
    && (stop.MaxAttempts? <==> f && !last.result.partial && transient && attempts == p.maxAttempts)
    && (stop.DeadlineExhausted? <==> Repeatable(p, last, attempts) && late)
    && (stop.RunBudgetExhausted? <==>
          Repeatable(p, last, attempts) && !late && last.budgetRemaining.Some? && delay >= last.budgetRemaining.value)
  }

  lemma StopIsExactly<T>(p: Policy, last: Trial<T>, attempts: nat, started: real, delay: real)
    requires p.Valid() && 1 <= attempts <= p.maxAttempts && Waits(p, last, BackoffBase(p, attempts), delay)
    ensures StopAfter(p, last, attempts, started).Some? ==>
              StopIs(p, last, attempts, started, delay, StopAfter(p, last, attempts, started).value)
  {
    DelayWaits(p, last, attempts);
    WaitsOnce(p, last, BackoffBase(p, attempts), delay, Delay(p, last, attempts));
  }

  /** When the loop ends, no more attempts than allowed were made, all but the last one failed and were repeatable, and the
      reason given is the truth. */
  lemma StopReasonsAreTrue<T>(p: Policy, trials: seq<Trial<T>>, started: real, attempts: nat, stop: Stop, delay: real)
    requires p.Valid() && |trials| == p.maxAttempts && EndsAt(p, trials, started, attempts, stop)
    requires Waits(p, trials[attempts - 1], BackoffBase(p, attempts), delay)
    ensures attempts <= p.maxAttempts && (p.profile.NotionCreate? ==> attempts == 1)
    ensures StopIs(p, trials[attempts - 1], attempts, started, delay, stop)
    ensures forall i | 0 <= i < attempts - 1 :: Repeatable(p, trials[i], i + 1)
  {
    StopIsExactly(p, trials[attempts - 1], attempts, started, delay);
    forall i | 0 <= i < attempts - 1 ensures Repeatable(p, trials[i], i + 1) {
      assert GoesOn(p, trials, i + 1, started);
      DelayWaits(p, trials[i], i + 1);
      ContinuesExactly(p, trials[i], i + 1, started, Delay(p, trials[i], i + 1));
    }
    if attempts > 1 {
      assert Repeatable(p, trials[0], 1);
    }
  }

  /** What the report shows, entry by entry: every run numbered and with its category; the runs after which the loop went on
      with the wait the provider asked for, or the jittered one, which fitted deadline and budget; the last one with none. */
  lemma ReportIsTrue<T>(p: Policy, trials: seq<Trial<T>>, started: real, attempts: nat, stop: Stop, history: seq<Entry>, i: nat)
    requires p.Valid() && |trials| == p.maxAttempts && EndsAt(p, trials, started, attempts, stop)
    requires |history| == attempts && forall k | 0 <= k < attempts :: history[k] == EntryFor(p, trials[k], k + 1, started)
    requires i < attempts
    ensures var entry, trial := history[i], trials[i];
            && entry.attempt == i + 1 && (entry.category.None? <==> trial.result.Value?)
            && (trial.result.Value? ==> !entry.retryable && !entry.partial)
            && (trial.result.Failure? ==>
                  && entry.category == Some(trial.result.category) && entry.partial == trial.result.partial
                  && (entry.retryable <==> trial.result.category in {Connection, Timeout, TransientProviderError, RateLimit}))
            && (i == attempts - 1 ==> entry.delay == 0.0)
            && (i < attempts - 1 ==>
                  && Waits(p, trial, BackoffBase(p, i + 1), entry.delay) && entry.delay >= 0.0
                  && trial.finished - started + entry.delay < p.deadline
                  && (trial.budgetRemaining.Some? ==> entry.delay < trial.budgetRemaining.value))
  {
    if i < attempts - 1 {
      assert GoesOn(p, trials, i + 1, started);
      DelayWaits(p, trials[i], i + 1);
      ContinuesExactly(p, trials[i], i + 1, started, Delay(p, trials[i], i + 1));
    }
  }

  // ---------- Time ----------

  /** The sleeper sleeps as reported and clocks do not run backwards: each run starts when the delay is over. */
  predicate SleepsExactly<T>(trials: seq<Trial<T>>, begins: seq<real>, history: seq<Entry>, started: real) {
    && |history| <= |trials| && |history| <= |begins|
    && (forall i | 0 <= i < |history| :: trials[i].finished >= begins[i])
    && (history != [] ==> begins[0] == started)
    && forall i | 1 <= i < |history| :: begins[i] == trials[i - 1].finished + history[i - 1].delay
  }

  function SleepTotal(history: seq<Entry>): real {
    if history == [] then 0.0 else SleepTotal(history[..|history| - 1]) + history[|history| - 1].delay
  }

  lemma {:induction false} SleepFitsElapsed<T>(trials: seq<Trial<T>>, begins: seq<real>, history: seq<Entry>, started: real, n: nat)
    requires 1 <= n <= |history| && SleepsExactly(trials, begins, history, started)
    ensures SleepTotal(history[..n - 1]) <= begins[n - 1] - started
  {
    if n == 1 {
    } else {
      SleepFitsElapsed(trials, begins, history, started, n - 1);
      assert history[..n - 1][..n - 2] == history[..n - 2];
    }
  }

  /** No run of the operation starts at or after the deadline, and the total time slept is below it. */
  lemma EveryRunStartsInTime<T>(p: Policy, trials: seq<Trial<T>>, begins: seq<real>, started: real, attempts: nat,
                                stop: Stop, history: seq<Entry>, n: nat)
    requires p.Valid() && |trials| == p.maxAttempts && EndsAt(p, trials, started, attempts, stop) && 1 <= n <= attempts
    requires |history| == attempts && forall k | 0 <= k < attempts :: history[k] == EntryFor(p, trials[k], k + 1, started)
    requires SleepsExactly(trials, begins, history, started)
    ensures begins[n - 1] - started < p.deadline
    ensures SleepTotal(history[..n - 1]) < p.deadline
  {
    SleepFitsElapsed(trials, begins, history, started, n);
    if n > 1 {
      ReportIsTrue(p, trials, started, attempts, stop, history, n - 2);
      assert begins[n - 1] == trials[n - 2].finished + history[n - 2].delay;
    }
  }

  // ---------- Around a durable model call ----------

  /** The category each outcome of a durable attempt carries. A conflict carries none and is classified by its text,
      which names the attempt; so does an integrity error, whose fixed wording matches no transient failure. */
  function CategoryOf(outcome: CallOutcome, byText: Category): Category
    requires !outcome.Returned?
  {
    match outcome
    case NotSentRaised => Connection
    case RejectedRaised => Configuration
    case PartialRaised => ProviderPartialResponse
    case UncertainRaised(_) => ProviderCallUncertain
    case BudgetRaised(_) => LocalBudget
    case IntegrityRaised => ProviderError
    case ConflictRaised => byText
  }

  function PartialOf(outcome: CallOutcome): bool {
    outcome.PartialRaised? || (outcome.UncertainRaised? && outcome.partialSeen)
  }

  /** The loop stops for partial content exactly after an outcome that tells of some. */
  lemma PartialContentStops(p: Policy, trial: Trial<CallOutcome>, outcome: CallOutcome, byText: Category, attempt: nat,
                            started: real)
    requires attempt >= 1 && !outcome.Returned? && trial.result == Failure(CategoryOf(outcome, byText), PartialOf(outcome))
    ensures StopAfter(p, trial, attempt, started) == Some(PartialContent)
            <==> outcome == PartialRaised || outcome == UncertainRaised(true)
  {
  }

  /** Whenever this loop goes on after an outcome of a durable attempt, the protocol's own retry step does:
      nothing reached the provider, unless the attempt never ran at all. */
  lemma LoopFollowsProtocol(p: Policy, trial: Trial<CallOutcome>, outcome: CallOutcome, byText: Category, attempt: nat,
                            started: real)
    requires p.Valid() && attempt >= 1 && !outcome.Returned?
    requires trial.result == Failure(CategoryOf(outcome, byText), PartialOf(outcome))
    requires StopAfter(p, trial, attempt, started).None?
    ensures Retryable(outcome, RetryableCategory(byText)) && attempt < p.maxAttempts
  {
    DelayWaits(p, trial, attempt);
    ContinuesExactly(p, trial, attempt, started, Delay(p, trial, attempt));
  }
}

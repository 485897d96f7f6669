/**
 The retry loop of `LLMGateway.complete` (core/llm/gateway.py) seen from outside:
 a trace of attempts, what each attempt does, and what follows for all traces.
 */
module GatewayTrace {
  import opened LimiterProtocol
  import opened Options
  import opened LimiterCooldown
  import opened SharedStore
  import opened Text

  /** What the provider call of one attempt comes to. */
  datatype Outcome =
    | Ok(tokensIn: nat, tokensOut: nat)
    | ContextTooLarge
    | Permanent(invalidKey: bool)
    | RateLimited(retryAfter: Option<real>)
    | Unavailable                       // ProviderUnavailableError
    | Transient                         // timeout, connection, any other retryable error
    | BareRuntimeError(message: string)
    | Unexpected

  datatype Error =
    | CircuitOpenError(key: string)
    | NoCapacity(reason: string)        // RateLimitError of the gateway itself
    | ContextError
    | PermanentError(invalidKey: bool)
    | RateLimitError
    | ProviderUnavailable
    | TransientError
    | ModelNotAvailable
    | PlainLLMError
    | StoreError                        // Redis refused the cooldown's time to live
    | UnexpectedError
    | LoopExhausted

  datatype Result = Returned(tokensIn: nat, tokensOut: nat) | Raised(error: Error)

  datatype Attempt =
    | Rejected(byProvider: bool)
    // denied; by which deadline, if by a cooldown; and the deadline `cooldown_remaining` then found, if any
    | Denied(reason: string, blockedBy: Option<int>, waitedFor: Option<int>, remaining: real, jitter: real)
    | Called(outcome: Outcome, jitter: real)

  /** One call of `complete`: who asks, with what keys, how often it may retry. */
  datatype Call = Call(req: Req, providerKey: string, credKey: string, maxRetries: int)

  /** The tokens a result stands for. */
  function Used(result: Result): nat {
    match result
    case Returned(tokensIn, tokensOut) => tokensIn + tokensOut
    case Raised(_) => 0
  }

  // ---------------------------------------------------------------------------
  // Back-off
  // ---------------------------------------------------------------------------

  function Pow2(n: nat): nat {
    if n == 0 then 1 else 2 * Pow2(n - 1)
  }

  function Delay(attempt: nat): real {
    if 2 * Pow2(attempt) < 64 then (2 * Pow2(attempt)) as real else 64.0
  }

  function Backoff(attempt: nat, retryAfter: Option<real>, jitter: real): real {
    match retryAfter
    case Some(seconds) => seconds + jitter
    case None => Delay(attempt) + jitter
  }

  /** `random.uniform`: 0.5..2 next to a retry-after, 0.5..1.5 next to a delay. */
  predicate JitterOk(a: Attempt) {
    match a
    case Rejected(_) => true
    case Denied(_, _, _, _, jitter) => 0.5 <= jitter <= 1.5
    case Called(RateLimited(Some(_)), jitter) => 0.5 <= jitter <= 2.0
    case Called(_, jitter) => 0.5 <= jitter <= 1.5
  }

  /** `if retry_after:` */
  predicate Truthy(retryAfter: Option<real>) {
    retryAfter.Some? && retryAfter.value != 0.0
  }

  function Larger(a: real, b: real): real {
    if a >= b then a else b
  }

  // ---------------------------------------------------------------------------
  // Error routing
  // ---------------------------------------------------------------------------

  /** `_raise_classified`. */
  function Classify(message: string): (e: Error)
    ensures e != LoopExhausted
  {
    var m := Lower(message);
    if Occurs("rate-limited", m) || Occurs("rate limit", m) || Occurs("429", m) || Occurs("resource_exhausted", m)
    then RateLimitError
    else if Occurs("rejected api key", m) || Occurs("access denied", m) || Occurs("401", m) || Occurs("403", m)
    then PermanentError(true)
    else if Occurs("404", m) || Occurs("model or endpoint not found", m) then ModelNotAvailable
    else if Occurs("context", m) && (Occurs("too large", m) || Occurs("length", m) || Occurs("maximum", m))
    then ContextError
    else if Occurs("outage", m) || Occurs("50", m) then ProviderUnavailable
    else PlainLLMError
  }

  /** An attempt after which the loop may go round again. */
  predicate Retries(a: Attempt) {
    match a
    case Rejected(_) => false
    case Denied(_, _, _, _, _) => true
    case Called(RateLimited(after), _) => Truthy(after) ==> CooldownAccepted(after.value)
    case Called(outcome, _) => outcome.Unavailable? || outcome.Transient?
  }

  /** What `complete` does if this attempt is its last. */
  function Verdict(c: Call, a: Attempt): (r: Result)
    ensures r != Raised(LoopExhausted)
    ensures Used(r) == if a.Called? && a.outcome.Ok? then a.outcome.tokensIn + a.outcome.tokensOut else 0
  {
    match a
    case Rejected(byProvider) => Raised(CircuitOpenError(if byProvider then c.providerKey else c.credKey))
    case Denied(reason, _, _, _, _) => Raised(NoCapacity(reason))
    case Called(outcome, _) =>
      match outcome
      case Ok(tokensIn, tokensOut) => Returned(tokensIn, tokensOut)
      case ContextTooLarge => Raised(ContextError)
      case Permanent(invalidKey) => Raised(PermanentError(invalidKey))
      case RateLimited(_) => Raised(if Retries(a) then RateLimitError else StoreError)
      case Unavailable => Raised(ProviderUnavailable)
      case Transient => Raised(TransientError)
      case BareRuntimeError(message) => Raised(Classify(message))
      case Unexpected => Raised(UnexpectedError)
  }

  // ---------------------------------------------------------------------------
  // What an attempt does
  // ---------------------------------------------------------------------------

  function Wait(a: Attempt, n: nat): real {
    match a
    case Rejected(_) => 0.0
    case Denied(_, _, _, remaining, jitter) => Larger(remaining, Backoff(n, None, jitter))
    case Called(RateLimited(after), jitter) => Backoff(n, after, jitter)
    case Called(_, jitter) => Backoff(n, None, jitter)
  }

  function Checks(c: Call): seq<Op> {
    [Checked(c.providerKey, true), Checked(c.credKey, true)]
  }

  /** From the provider call to the end of the attempt. */
  function Settlement(c: Call, outcome: Outcome): seq<Op> {
    match outcome
    case Ok(tokensIn, tokensOut) => [Succeeded(c.providerKey), Succeeded(c.credKey), GaveBack(tokensIn + tokensOut)]
    case ContextTooLarge => [GaveBack(0)]
    case Permanent(invalidKey) => [Failed(c.credKey, invalidKey), GaveBack(0)]
    case RateLimited(after) =>
      if !Truthy(after) then [GaveBack(0), Failed(c.credKey, false)]
      else if CooldownAccepted(after.value) then [GaveBack(0), CooledDown(after.value), Failed(c.credKey, false)]
      else [GaveBack(0), CooledDown(after.value)]
    case Unavailable => [Failed(c.providerKey, false), GaveBack(0)]
    case Transient => [Failed(c.credKey, false), GaveBack(0)]
    case BareRuntimeError(_) => [GaveBack(0)]
    case Unexpected => [GaveBack(0)]
  }

  /** An attempt's visible actions before any sleep. */
  function Acts(c: Call, a: Attempt): seq<Op> {
    match a
    case Rejected(true) => [Checked(c.providerKey, false)]
    case Rejected(false) => [Checked(c.providerKey, true), Checked(c.credKey, false)]
    case Denied(_, _, _, _, _) => Checks(c) + [Reserved(false)]
    case Called(outcome, _) => Checks(c) + [Reserved(true), CalledProvider] + Settlement(c, outcome)
  }

  function Pause(c: Call, a: Attempt, n: nat): seq<Op> {
    if Retries(a) && n < c.maxRetries then [Slept(Wait(a, n))] else []
  }

  /** The journal of attempts 0, 1, ... with the sleeps between them. */
  function Script(c: Call, trace: seq<Attempt>): seq<Op> {
    if trace == [] then []
    else
      var n := |trace| - 1;
      Script(c, trace[..n]) + Acts(c, trace[n]) + Pause(c, trace[n], n)
  }

  /** The loop goes round only after an attempt that retries, and stops at the limit. */
  ghost predicate Stopped(c: Call, trace: seq<Attempt>) {
    && |trace| <= (if c.maxRetries >= 0 then c.maxRetries + 1 else 0)
    && (forall i | 0 <= i < |trace| :: JitterOk(trace[i]))
    && (forall i | 0 <= i < |trace| - 1 :: Retries(trace[i]))
    && (trace == [] ==> c.maxRetries < 0)
    && (trace != [] && Retries(trace[|trace| - 1]) ==> |trace| == c.maxRetries + 1)
  }

  /** A complete run of the loop and what it comes to: the final raise is for a negative limit only. */
  ghost predicate Complete(c: Call, trace: seq<Attempt>, result: Result) {
    && Stopped(c, trace)
    && result == if trace == [] then Raised(LoopExhausted) else Verdict(c, trace[|trace| - 1])
  }

  /** Attempts so far, after each of which the loop went round. */
  ghost predicate Underway(trace: seq<Attempt>) {
    forall i | 0 <= i < |trace| :: JitterOk(trace[i]) && Retries(trace[i])
  }

  /** Where the provider answered, it answered what it was going to. */
  ghost predicate Faithful(trace: seq<Attempt>, outcomes: nat -> Outcome) {
    forall i | 0 <= i < |trace| && trace[i].Called? :: trace[i].outcome == outcomes(i)
  }

  lemma Regroup<T>(a: seq<T>, b: seq<T>, c: seq<T>, d: seq<T>)
    ensures a + b + c + d == a + (b + c + d)
  {
  }

  lemma NothingYet(c: Call)
    ensures Script(c, []) == []
  {
  }

  /** Attempt b comes after a waited for a deadline: a cooldown denies it only under a later one. */
  predicate NotAgain(a: Attempt, b: Attempt) {
    a.Denied? && a.waitedFor.Some? && b.Denied? && b.blockedBy.Some? ==> b.blockedBy.value > a.waitedFor.value
  }

  /** A cooldown denies no two attempts in a row. */
  predicate NotTwice(a: Attempt, b: Attempt) {
    a.Denied? && a.blockedBy.Some? ==> !(b.Denied? && b.blockedBy.Some?)
  }

  predicate WaitsForItsDenial(a: Attempt) {
    a.Denied? && a.blockedBy.Some? ==> a.waitedFor == a.blockedBy
  }

  ghost predicate Patient(trace: seq<Attempt>) {
    forall i | 0 < i < |trace| :: NotAgain(trace[i - 1], trace[i])
  }

  /** With nobody else at work. */
  ghost predicate PatientAlone(trace: seq<Attempt>) {
    && (forall i | 0 < i < |trace| :: NotTwice(trace[i - 1], trace[i]))
    && (forall i | 0 <= i < |trace| :: WaitsForItsDenial(trace[i]))
  }

  /** A journal that follows the script still does after one more attempt. */
  lemma ScriptGrows(c: Call, start: seq<Op>, trace: seq<Attempt>, a: Attempt)
    ensures start + Script(c, trace) + Acts(c, a) + Pause(c, a, |trace|) == start + Script(c, trace + [a])
  {
    hide Acts, Pause;
    assert (trace + [a])[..|trace|] == trace;
    Regroup(start, Script(c, trace), Acts(c, a), Pause(c, a, |trace|));
  }

  // ---------------------------------------------------------------------------
  // What holds of every trace
  // ---------------------------------------------------------------------------

  /** What is counted in a journal. */
  datatype Kind = Calls | Grants | GiveBacks | Tokens

  function Weight(kind: Kind, op: Op): nat {
    match kind
    case Calls => if op.CalledProvider? then 1 else 0
    case Grants => if op.Reserved? && op.ok then 1 else 0
    case GiveBacks => if op.GaveBack? then 1 else 0
    case Tokens => if op.GaveBack? then op.actual else 0
  }

  function Sum(kind: Kind, ops: seq<Op>): nat {
    if ops == [] then 0 else Weight(kind, ops[0]) + Sum(kind, ops[1..])
  }

  function TimeSlept(ops: seq<Op>): real {
    if ops == [] then 0.0 else (if ops[0].Slept? then ops[0].seconds else 0.0) + TimeSlept(ops[1..])
  }

  lemma {:induction false} SumOfBoth(kind: Kind, a: seq<Op>, b: seq<Op>)
    ensures Sum(kind, a + b) == Sum(kind, a) + Sum(kind, b)
  {
    if a == [] {
      assert a + b == b;
    } else {
      assert (a + b)[1..] == a[1..] + b;
      SumOfBoth(kind, a[1..], b);
    }
  }

  lemma {:induction false} SleepOfBoth(a: seq<Op>, b: seq<Op>)
    ensures TimeSlept(a + b) == TimeSlept(a) + TimeSlept(b)
  {
    if a == [] {
      assert a + b == b;
    } else {
      assert (a + b)[1..] == a[1..] + b;
      SleepOfBoth(a[1..], b);
    }
  }

  lemma {:induction false} NoSleep(ops: seq<Op>)
    requires forall i | 0 <= i < |ops| :: !ops[i].Slept?
    ensures TimeSlept(ops) == 0.0
  {
    if ops != [] {
      NoSleep(ops[1..]);
    }
  }

  lemma {:induction false} SumOfFew(kind: Kind, ops: seq<Op>)
    ensures |ops| == 1 ==> Sum(kind, ops) == Weight(kind, ops[0])
    ensures |ops| == 2 ==> Sum(kind, ops) == Weight(kind, ops[0]) + Weight(kind, ops[1])
    ensures |ops| == 3 ==> Sum(kind, ops) == Weight(kind, ops[0]) + Weight(kind, ops[1]) + Weight(kind, ops[2])
  {
    if |ops| == 1 {
      assert ops[1..] == [];
    } else if |ops| == 2 || |ops| == 3 {
      SumOfFew(kind, ops[1..]);
    }
  }

  /** What one attempt adds up to: what it was granted it gives back, and only a success charges tokens. */
  function Balance(kind: Kind, a: Attempt): nat {
    if !a.Called? then 0
    else if kind != Tokens then 1
    else if a.outcome.Ok? then a.outcome.tokensIn + a.outcome.tokensOut
    else 0
  }

  lemma {:induction false} AttemptBalances(c: Call, kind: Kind, a: Attempt)
    ensures Sum(kind, Acts(c, a)) == Balance(kind, a)
  {
    match a
    case Rejected(_) => SumOfFew(kind, Acts(c, a));
    case Denied(_, _, _, _, _) =>
      SumOfFew(kind, Checks(c));
      SumOfFew(kind, [Reserved(false)]);
      SumOfBoth(kind, Checks(c), [Reserved(false)]);
    case Called(outcome, _) => CallBalances(c, kind, outcome);
  }

  lemma SettlementBalances(c: Call, kind: Kind, outcome: Outcome)
    ensures Sum(kind, [Reserved(true), CalledProvider]) + Sum(kind, Settlement(c, outcome))
         == Balance(kind, Called(outcome, 0.0))
  {
    SumOfFew(kind, [Reserved(true), CalledProvider]);
    SumOfFew(kind, Settlement(c, outcome));
  }

  lemma CallBalances(c: Call, kind: Kind, outcome: Outcome)
    ensures Sum(kind, Checks(c) + [Reserved(true), CalledProvider] + Settlement(c, outcome))
         == Balance(kind, Called(outcome, 0.0))
  {
    SumOfFew(kind, Checks(c));
    hide Sum, Settlement, Balance;
    SettlementBalances(c, kind, outcome);
    SumOfBoth(kind, Checks(c), [Reserved(true), CalledProvider]);
    SumOfBoth(kind, Checks(c) + [Reserved(true), CalledProvider], Settlement(c, outcome));
  }

  lemma {:induction false} ScriptStep(c: Call, kind: Kind, trace: seq<Attempt>)
    requires trace != []
    ensures var n := |trace| - 1;
            Sum(kind, Script(c, trace)) == Sum(kind, Script(c, trace[..n])) + Balance(kind, trace[n])
  {
    var n := |trace| - 1;
    var before, acts, pause := Script(c, trace[..n]), Acts(c, trace[n]), Pause(c, trace[n], n);
    AttemptBalances(c, kind, trace[n]);
    SumOfBoth(kind, before, acts);
    SumOfBoth(kind, before + acts, pause);
    SumOfFew(kind, pause);
  }

  lemma {:induction false} ActsNeverSleep(c: Call, a: Attempt)
    ensures TimeSlept(Acts(c, a)) == 0.0
  {
    NoSleep(Checks(c));
    NoSleep([Reserved(true), CalledProvider]);
    if a.Called? {
      NoSleep(Settlement(c, a.outcome));
      SleepOfBoth(Checks(c), [Reserved(true), CalledProvider]);
      SleepOfBoth(Checks(c) + [Reserved(true), CalledProvider], Settlement(c, a.outcome));
    } else {
      NoSleep(Acts(c, a));
    }
  }

  function PauseLength(c: Call, a: Attempt, n: nat): real {
    if Retries(a) && n < c.maxRetries then Wait(a, n) else 0.0
  }

  lemma {:induction false} SleepStep(c: Call, trace: seq<Attempt>)
    requires trace != []
    ensures TimeSlept(Script(c, trace)) == TimeSlept(Script(c, trace[..|trace| - 1]))
            + PauseLength(c, trace[|trace| - 1], |trace| - 1)
  {
    var n := |trace| - 1;
    var before, acts, pause := Script(c, trace[..n]), Acts(c, trace[n]), Pause(c, trace[n], n);
    SleepOfBoth(before, acts);
    SleepOfBoth(before + acts, pause);
    ActsNeverSleep(c, trace[n]);
    if pause != [] {
      assert pause[1..] == [];
    }
  }

  function CallsIn(trace: seq<Attempt>): nat {
    if trace == [] then 0 else CallsIn(trace[..|trace| - 1]) + if trace[|trace| - 1].Called? then 1 else 0
  }

  lemma {:induction false} ScriptBalances(c: Call, kind: Kind, trace: seq<Attempt>)
    requires forall i | 0 <= i < |trace| - 1 :: Retries(trace[i])
    ensures Sum(kind, Script(c, trace))
         == if kind != Tokens then CallsIn(trace) else if trace == [] then 0 else Balance(Tokens, trace[|trace| - 1])
  {
    if trace != [] {
      ScriptBalances(c, kind, trace[..|trace| - 1]);
      ScriptStep(c, kind, trace);
    }
  }

  lemma {:induction false} CallsBounded(trace: seq<Attempt>)
    ensures CallsIn(trace) <= |trace|
  {
    if trace != [] {
      CallsBounded(trace[..|trace| - 1]);
    }
  }

  /** Whatever happens, each granted reservation is given back once, there are at most `maxRetries` + 1 provider
      calls, and the tokens given back are those of the answer, or none. */
  lemma EveryGrantGivenBackOnce(c: Call, trace: seq<Attempt>, result: Result)
    requires Complete(c, trace, result)
    ensures Sum(Grants, Script(c, trace)) == Sum(GiveBacks, Script(c, trace)) == Sum(Calls, Script(c, trace))
            == CallsIn(trace)
    ensures c.maxRetries >= 0 ==> CallsIn(trace) <= c.maxRetries + 1
    ensures Sum(Tokens, Script(c, trace)) == Used(result)
    ensures result == Raised(LoopExhausted) <==> c.maxRetries < 0
  {
    ScriptBalances(c, Grants, trace);
    ScriptBalances(c, GiveBacks, trace);
    ScriptBalances(c, Calls, trace);
    ScriptBalances(c, Tokens, trace);
    CallsBounded(trace);
  }

  ghost predicate GuardedAt(c: Call, ops: seq<Op>, i: nat)
    requires i < |ops|
  {
    && (ops[i].CalledProvider? ==> i >= 3 && ops[i - 3..i] == Checks(c) + [Reserved(true)])
    && (ops[i].Reserved? ==> i >= 2 && ops[i - 2..i] == Checks(c))
  }

  /** A provider call comes right after both breakers let it pass and a reservation was granted. */
  ghost predicate Guarded(c: Call, ops: seq<Op>) {
    forall i | 0 <= i < |ops| :: GuardedAt(c, ops, i)
  }

  lemma SliceLeft(a: seq<Op>, b: seq<Op>, i: nat, n: nat)
    requires n <= i <= |a|
    ensures (a + b)[i - n..i] == a[i - n..i]
  {
  }

  lemma SliceRight(a: seq<Op>, b: seq<Op>, i: nat, n: nat)
    requires |a| + n <= i <= |a| + |b|
    ensures (a + b)[i - n..i] == b[i - |a| - n..i - |a|]
  {
  }

  lemma GuardedLeft(c: Call, a: seq<Op>, b: seq<Op>, i: nat)
    requires i < |a| && GuardedAt(c, a, i)
    ensures GuardedAt(c, a + b, i)
  {
    hide Checks;
    if i >= 2 {
      SliceLeft(a, b, i, 2);
    }
    if i >= 3 {
      SliceLeft(a, b, i, 3);
    }
  }

  lemma GuardedRight(c: Call, a: seq<Op>, b: seq<Op>, i: nat)
    requires |a| <= i < |a| + |b| && GuardedAt(c, b, i - |a|)
    ensures GuardedAt(c, a + b, i)
  {
    hide Checks;
    if i >= |a| + 2 {
      SliceRight(a, b, i, 2);
    }
    if i >= |a| + 3 {
      SliceRight(a, b, i, 3);
    }
  }

  lemma {:induction false} GuardedTogether(c: Call, a: seq<Op>, b: seq<Op>)
    requires Guarded(c, a) && Guarded(c, b)
    ensures Guarded(c, a + b)
  {
    hide GuardedAt;
    forall i | 0 <= i < |a + b| ensures GuardedAt(c, a + b, i) {
      if i < |a| {
        GuardedLeft(c, a, b, i);
      } else {
        GuardedRight(c, a, b, i);
      }
    }
  }

  lemma {:induction false} AttemptGuarded(c: Call, a: Attempt)
    ensures Guarded(c, Acts(c, a))
  {
    match a
    case Rejected(_) =>
    case Denied(_, _, _, _, _) => assert Acts(c, a)[0..2] == Checks(c);
    case Called(outcome, _) =>
      hide Settlement;
      var settled := Settlement(c, outcome);
      NeverReserves(c, outcome);
      assert Acts(c, a) == Checks(c) + [Reserved(true), CalledProvider] + settled;
      assert Acts(c, a)[0..3] == Checks(c) + [Reserved(true)];
      assert Acts(c, a)[0..2] == Checks(c);
  }

  lemma NeverReserves(c: Call, outcome: Outcome)
    ensures forall i | 0 <= i < |Settlement(c, outcome)| ::
              !Settlement(c, outcome)[i].CalledProvider? && !Settlement(c, outcome)[i].Reserved?
  {
  }

  lemma {:induction false} NothingUnguarded(c: Call, trace: seq<Attempt>)
    ensures Guarded(c, Script(c, trace))
  {
    if trace != [] {
      var n := |trace| - 1;
      NothingUnguarded(c, trace[..n]);
      AttemptGuarded(c, trace[n]);
      GuardedTogether(c, Script(c, trace[..n]), Acts(c, trace[n]));
      GuardedTogether(c, Script(c, trace[..n]) + Acts(c, trace[n]), Pause(c, trace[n], n));
    }
  }

  /** Nobody asked for a longer wait: no cooldown was running and no retry-after came back. */
  predicate Unhinted(a: Attempt) {
    (a.Denied? ==> a.remaining <= 0.0) && (a.Called? && a.outcome.RateLimited? ==> a.outcome.retryAfter.None?)
  }

  /** The longest un-hinted pause after attempt n. */
  function Cap(n: nat): real {
    Delay(n) + 1.5
  }

  lemma {:induction false} PauseBounded(c: Call, a: Attempt, n: nat)
    requires Unhinted(a) && JitterOk(a)
    ensures 0.0 <= PauseLength(c, a, n) <= if n < c.maxRetries then Cap(n) else 0.0
  {
  }

  function SleepBound(n: nat): real {
    if n == 0 then 0.0 else SleepBound(n - 1) + Cap(n - 1)
  }

  /** How many pauses the first `n` attempts can have. */
  function Pauses(c: Call, n: nat): nat {
    if c.maxRetries < 0 then 0 else if n < c.maxRetries then n else c.maxRetries
  }

  lemma {:induction false} SleepsBounded(c: Call, trace: seq<Attempt>)
    requires forall i | 0 <= i < |trace| :: Unhinted(trace[i]) && JitterOk(trace[i])
    ensures 0.0 <= TimeSlept(Script(c, trace)) <= SleepBound(Pauses(c, |trace|))
  {
    if trace == [] {
      assert SleepBound(Pauses(c, 0)) == 0.0;
    } else {
      var n := |trace| - 1;
      SleepsBounded(c, trace[..n]);
      SleepStep(c, trace);
      PauseBounded(c, trace[n], n);
      if n < c.maxRetries {
        assert SleepBound(n + 1) == SleepBound(n) + Cap(n);
      }
    }
  }

  /** Without a hint the sleeps of a call total at most the delays min(2^(a+1), 64) with their jitter;
      for the default of four retries that is 36 seconds. */
  lemma TotalSleepBounded(c: Call, trace: seq<Attempt>, result: Result)
    requires Complete(c, trace, result) && c.maxRetries >= 0
    requires forall i | 0 <= i < |trace| :: Unhinted(trace[i])
    ensures TimeSlept(Script(c, trace)) <= SleepBound(c.maxRetries)
    ensures c.maxRetries == 4 ==> TimeSlept(Script(c, trace)) <= 36.0
  {
    SleepsBounded(c, trace);
    if |trace| < c.maxRetries {
      SleepBoundGrows(|trace|, c.maxRetries);
    }
    assert Pow2(1) == 2 && Pow2(2) == 4 && Pow2(3) == 8;
    assert SleepBound(4) == Delay(0) + Delay(1) + Delay(2) + Delay(3) + 6.0;
  }

  lemma {:induction false} SleepBoundGrows(m: nat, n: nat)
    requires m <= n
    ensures SleepBound(m) <= SleepBound(n)
  {
    if m < n {
      SleepBoundGrows(m, n - 1);
    }
  }

  lemma {:induction false} PowersGrow(n: nat)
    requires n >= 5
    ensures Pow2(n) >= 32
  {
    if n == 5 {
      assert Pow2(2) == 4 && Pow2(4) == 16;
    } else {
      PowersGrow(n - 1);
    }
  }

  /** The delays are 2, 4, 8, 16 and 32 seconds, and 64 from then on. */
  lemma DelaysDouble(n: nat)
    ensures [Delay(0), Delay(1), Delay(2), Delay(3), Delay(4)] == [2.0, 4.0, 8.0, 16.0, 32.0]
    ensures n >= 5 ==> Delay(n) == 64.0
  {
    assert Pow2(1) == 2 && Pow2(2) == 4 && Pow2(3) == 8 && Pow2(4) == 16;
    if n >= 5 {
      PowersGrow(n);
    }
  }

  /** The shortest un-hinted pauses after n attempts. */
  function LeastSleep(n: nat): real {
    if n == 0 then 0.0 else LeastSleep(n - 1) + Delay(n - 1) + 0.5
  }

  lemma {:induction false} SleepsAtLeast(c: Call, trace: seq<Attempt>, n: nat)
    requires n <= |trace| && n <= c.maxRetries
    requires forall i | 0 <= i < n :: Unhinted(trace[i]) && JitterOk(trace[i]) && Retries(trace[i])
    ensures TimeSlept(Script(c, trace[..n])) >= LeastSleep(n)
  {
    if n > 0 {
      hide Script;
      assert trace[..n][..n - 1] == trace[..n - 1];
      SleepsAtLeast(c, trace, n - 1);
      SleepStep(c, trace[..n]);
      assert PauseLength(c, trace[n - 1], n - 1) >= Delay(n - 1) + 0.5;
    }
  }

  /** A call that uses up the default of four retries without a hint sleeps for 32 to 36 seconds. */
  lemma FourRetriesSleep(c: Call, trace: seq<Attempt>, result: Result)
    requires Complete(c, trace, result) && c.maxRetries == 4 && |trace| == 5
    requires forall i | 0 <= i < |trace| :: Unhinted(trace[i])
    ensures 32.0 <= TimeSlept(Script(c, trace)) <= 36.0
  {
    hide Script;
    TotalSleepBounded(c, trace, result);
    SleepsAtLeast(c, trace, 4);
    SleepStep(c, trace);
    DelaysDouble(4);
    assert LeastSleep(2) == Delay(0) + Delay(1) + 1.0;
    assert LeastSleep(4) == LeastSleep(2) + Delay(2) + Delay(3) + 1.0;
  }

  /** With a cooldown or a retry-after the wait covers it, and is no longer than it or the delay asks for. */
  lemma WaitCoversHint(a: Attempt, n: nat)
    requires JitterOk(a)
    ensures a.Denied? ==> Wait(a, n) >= a.remaining && Wait(a, n) >= Delay(n) + 0.5
    ensures a.Denied? ==> Wait(a, n) == a.remaining || Wait(a, n) <= Delay(n) + 1.5
    ensures a.Called? && a.outcome.RateLimited? && a.outcome.retryAfter.Some? ==>
              a.outcome.retryAfter.value + 0.5 <= Wait(a, n) <= a.outcome.retryAfter.value + 2.0
    ensures a.Called? && !(a.outcome.RateLimited? && a.outcome.retryAfter.Some?) ==>
              Delay(n) + 0.5 <= Wait(a, n) <= Delay(n) + 1.5
  {
  }
}

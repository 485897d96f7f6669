/**
 `LLMGateway.complete`: the retry loop over the shared store, with any other
 callers at work, any provider outcomes and any jitter.
 */
module Gateway {
  import opened LimiterProtocol
  import opened Options
  import opened LimiterLedger
  import opened SharedStore
  import opened GatewayTrace
  import CB = CircuitBreaker
  import RL = RateLimiter
  import opened LimiterCooldown
  import opened GatewayBreakers
  import BP = BreakerProtocol
  import Breaker

  datatype LlmRequest = LlmRequest(credential: string, provider: string, job: Option<string>, estimated: nat,
      messages: seq<string>)

  function Chars(messages: seq<string>): nat {
    if messages == [] then 0 else |messages[0]| + Chars(messages[1..])
  }

  /** One token per four characters, and never none. */
  function EstimateTokens(messages: seq<string>): (n: nat)
    ensures n >= 1 && (n > 1 ==> 4 * n <= Chars(messages)) && Chars(messages) < 4 * (n + 1)
  {
    if Chars(messages) / 4 < 1 then 1 else Chars(messages) / 4
  }

  function CallFor(r: LlmRequest, maxRetries: int): Call {
    var cred := if r.credential != "" then r.credential else "anon_" + r.provider;
    var est := if r.estimated != 0 then r.estimated else EstimateTokens(r.messages);
    Call(Req(cred, r.provider, r.job, est), CB.ProviderKey(r.provider), CB.CredKey(cred), maxRetries)
  }

  /** Two requests meet at a breaker of a provider or of a credential exactly if they name the same one, and never does
      one's provider meet the other's credential; those that name no credential meet if they name the same provider. */
  lemma MeetAtABreakerIff(r: LlmRequest, q: LlmRequest, m: int, n: int)
    ensures CallFor(r, m).providerKey == CallFor(q, n).providerKey <==> r.provider == q.provider
    ensures r.credential != "" && q.credential != "" ==>
              (CallFor(r, m).credKey == CallFor(q, n).credKey <==> r.credential == q.credential)
    ensures r.credential == "" && q.credential == "" ==>
              (CallFor(r, m).credKey == CallFor(q, n).credKey <==> r.provider == q.provider)
    ensures CallFor(r, m).providerKey != CallFor(q, n).credKey
  {
    var a, b := CallFor(r, m).req.cred, CallFor(q, n).req.cred;
    CB.KeysAreApart(r.provider, q.provider);
    CB.KeysAreApart(r.provider, b);
    CB.KeysAreApart(a, b);
    assert ("anon_" + r.provider)[5..] == r.provider && ("anon_" + q.provider)[5..] == q.provider;
  }

  /** What a request asks for: its own credential and estimate where it names them, else the provider's anonymous
      credential and a quarter of the characters, rounded down, but never nothing. */
  lemma WhatIsAsked(r: LlmRequest, maxRetries: int)
    ensures var c := CallFor(r, maxRetries);
            && c.req.provider == r.provider && c.req.job == r.job && c.maxRetries == maxRetries
            && (r.credential != "" ==> c.req.cred == r.credential)
            && (r.credential == "" ==> c.req.cred == "anon_" + r.provider)
            && (r.estimated > 0 ==> c.req.est == r.estimated)
            && (r.estimated == 0 && Chars(r.messages) >= 4 ==>
                  4 * c.req.est <= Chars(r.messages) < 4 * c.req.est + 4)
            && (r.estimated == 0 && Chars(r.messages) < 4 ==> c.req.est == 1)
  {
  }

  /** `random.uniform` from a sample of the unit interval. */
  function Uniform(retryAfter: Option<real>, sample: real): real {
    if retryAfter.Some? then 0.5 + 1.5 * sample else 0.5 + sample
  }

  /** The jitter may be anything from half a second to one and a half, or to two next to a retry-after. */
  lemma UniformCovers(retryAfter: Option<real>, jitter: real) returns (sample: real)
    ensures 0.5 <= jitter <= (if retryAfter.Some? then 2.0 else 1.5) <==>
              0.0 <= sample <= 1.0 && Uniform(retryAfter, sample) == jitter
  {
    sample := if retryAfter.Some? then (jitter - 0.5) / 1.5 else jitter - 0.5;
  }

  class LLMGateway {
    const store: Store
    const limiter: RL.RateLimiter
    const circuit: CB.CircuitBreaker
    const maxRetries: int

    constructor (store: Store, maxRetries: int)
      ensures this.store == store && this.maxRetries == maxRetries && Wired()
    {
      this.store, this.maxRetries := store, maxRetries;
      limiter := new RL.RateLimiter(store);
      circuit := new CB.CircuitBreaker(store);
    }

    predicate Wired() {
      limiter.store == store && circuit.store == store
    }

    /** The rate-limit branch: release, cooldown, breaker; a cooldown that Redis refuses ends it there. */
    method CoolDown(c: Call, token: RL.ReservationToken, after: Option<real>)
      requires Wired() && store.Valid() && !store.awaiting && store.Pc() == Held(token.req) && !token.released
      requires token.req.cred == store.account && store.charged == 0
      modifies store`s, store`circuits, store`schedule, store`traffic, store`latest, store`awaiting, store`charged,
               store`journal, token
      ensures store.Valid() && !store.awaiting && store.Pc().Idle? && store.s.now >= old(store.s.now)
      ensures store.journal == old(store.journal) + Settlement(c, RateLimited(after))
      ensures token.released && store.charged == 0
    {
      hide Store.Sound, Store.Heard;
      limiter.Release(token, 0);
      var ok := true;
      if Truthy(after) {
        var accepted, _ := store.SetCooldownFor(token.req.cred, after.value);
        ok := accepted;
      }
      if ok {
        circuit.RecordFailure(c.credKey, false);
      }
    }

    /** Step 4: the provider call, the exception branches and the `finally`. */
    method CallAndSettle(c: Call, token: RL.ReservationToken, outcome: Outcome)
      requires Wired() && store.Valid() && !store.awaiting && store.Pc() == Held(token.req) && !token.released
      requires token.req.cred == store.account && store.charged == 0
      modifies store`s, store`circuits, store`schedule, store`traffic, store`latest, store`awaiting, store`charged,
               store`journal, token
      ensures store.Valid() && !store.awaiting && store.Pc().Idle? && store.s.now >= old(store.s.now)
      ensures store.journal == old(store.journal) + [CalledProvider] + Settlement(c, outcome)
      ensures store.charged == if outcome.Ok? then outcome.tokensIn + outcome.tokensOut else 0
    {
      hide Store.Sound, Store.Heard;
      var actual := 0;
      store.Note(CalledProvider);
      match outcome {
        case Ok(tokensIn, tokensOut) =>
          actual := tokensIn + tokensOut;
          circuit.RecordSuccess(c.providerKey);
          circuit.RecordSuccess(c.credKey);
        case ContextTooLarge =>
          limiter.Release(token, 0);
        case Permanent(invalidKey) =>
          circuit.RecordFailure(c.credKey, invalidKey);
          limiter.Release(token, 0);
        case RateLimited(after) =>
          CoolDown(c, token, after);
        case Unavailable =>
          circuit.RecordFailure(c.providerKey, false);
          limiter.Release(token, 0);
        case Transient =>
          circuit.RecordFailure(c.credKey, false);
          limiter.Release(token, 0);
        case BareRuntimeError(_) =>
          limiter.Release(token, 0);
        case Unexpected =>
          limiter.Release(token, 0);
      }
      if !token.released {
        limiter.Release(token, actual);
      }
    }

    /** Step 1: both breakers. */
    method CheckCircuits(c: Call) returns (passed: bool, byProvider: bool)
      requires Wired() && store.Valid() && !store.awaiting
      modifies store`s, store`circuits, store`schedule, store`traffic, store`latest, store`awaiting, store`journal
      ensures store.Valid() && !store.awaiting && store.Follows(old(store.s), store.s)
      ensures store.journal == old(store.journal) + if passed then Checks(c) else Acts(c, Rejected(byProvider))
    {
      hide Store.Sound, Store.Heard;
      var providerOpen := circuit.IsOpen(c.providerKey);
      if providerOpen {
        return false, true;
      }
      var credOpen := circuit.IsOpen(c.credKey);
      return !credOpen, false;
    }

    /** What a denial tells: the deadline found afterwards is the one waited for, and one that denied the attempt lay
        ahead of `before`, the time it came with. */
    ghost predicate Told(a: Attempt, cred: string, before: State)
      reads store
    {
      a.Denied? ==>
        && a.waitedFor == GetCooldown(store.s.db, cred, store.s.now)
        && a.remaining == Remaining(store.s.db, cred, store.s.now)
        && (a.blockedBy.Some? ==> a.reason == "cred_cooldown" && a.blockedBy.value > before.now.Floor)
        && (a.blockedBy.Some? && store.alone ==>
              a.blockedBy == a.waitedFor == GetCooldown(before.db, cred, before.now))
    }

    /** Steps 2 to 4, up to the sleep; `elapsed` is how long the provider takes. */
    method ReserveAndCall(c: Call, outcome: Outcome, sample: real, elapsed: real) returns (a: Attempt)
      requires Wired() && store.Valid() && !store.awaiting && store.Pc().Idle?
      requires c.req.cred == store.account && store.charged == 0 && 0.0 <= sample <= 1.0
      modifies store`s, store`circuits, store`schedule, store`traffic, store`latest, store`awaiting
      modifies store`charged, store`journal
      ensures store.Valid() && !store.awaiting && store.Pc().Idle? && store.s.now >= old(store.s.now)
      ensures !a.Rejected? && JitterOk(a) && (a.Called? ==> a.outcome == outcome)
      ensures store.journal == old(store.journal) +
                if a.Denied? then [Reserved(false)] else [Reserved(true), CalledProvider] + Settlement(c, outcome)
      ensures store.charged == Balance(Tokens, a)
      ensures Told(a, c.req.cred, old(store.s))
    {
      hide Store.Sound, Store.Heard, Settlement, RL.Verdict;
      var allowed, reason, token, blockedBy := limiter.Reserve(c.req);
      if !allowed {
        var remaining, until := store.CooldownRemaining(c.req.cred);
        a := Denied(reason, blockedBy, until, remaining, Uniform(None, sample));
      } else {
        store.Elapse(elapsed);
        CallAndSettle(c, token, outcome);
        a := Called(outcome, Uniform(if outcome.RateLimited? then outcome.retryAfter else None, sample));
      }
    }

    /** One turn of the loop, up to the sleep. */
    method TryOnce(c: Call, outcome: Outcome, sample: real, elapsed: real) returns (a: Attempt)
      requires Wired() && store.Valid() && !store.awaiting && store.Pc().Idle?
      requires c.req.cred == store.account && store.charged == 0 && 0.0 <= sample <= 1.0
      modifies store`s, store`circuits, store`schedule, store`traffic, store`latest, store`awaiting
      modifies store`charged, store`journal
      ensures store.Valid() && !store.awaiting && store.Pc().Idle? && store.s.now >= old(store.s.now)
      ensures store.journal == old(store.journal) + Acts(c, a)
      ensures JitterOk(a) && (a.Called? ==> a.outcome == outcome)
      ensures store.charged == Balance(Tokens, a)
      ensures Told(a, c.req.cred, old(store.s))
    {
      hide Store.Sound, Store.Heard;
      var passed, byProvider := CheckCircuits(c);
      if !passed {
        return Rejected(byProvider);
      }
      a := ReserveAndCall(c, outcome, sample, elapsed);
    }

    /** After the sleep that follows a denial the deadline waited for is past; alone, it is still the one stored. */
    ghost predicate Rested(a: Attempt, cred: string)
      reads store
    {
      a.Denied? && a.waitedFor.Some? ==>
        && store.s.now >= a.waitedFor.value as real
        && (store.alone ==> cred in store.s.db.cooldown && store.s.db.cooldown[cred].until == a.waitedFor.value)
    }

    /** One turn of the loop with its sleep, if it goes round; `start` is the journal before the loop. */
    method Turn(c: Call, ghost start: seq<Op>, trace: seq<Attempt>, outcome: Outcome, sample: real, elapsed: real)
      returns (a: Attempt, again: bool)
      requires Wired() && store.Valid() && !store.awaiting && store.Pc().Idle?
      requires c.req.cred == store.account && store.charged == 0 && 0.0 <= sample <= 1.0
      requires |trace| <= c.maxRetries && store.journal == start + Script(c, trace)
      requires trace != [] ==> Rested(trace[|trace| - 1], c.req.cred)
      requires trace != [] && store.alone ==> WaitsForItsDenial(trace[|trace| - 1])
      modifies store`s, store`circuits, store`schedule, store`traffic, store`latest, store`awaiting
      modifies store`charged, store`journal
      ensures store.Valid() && !store.awaiting && store.Pc().Idle? && store.s.now >= old(store.s.now)
      ensures store.journal == start + Script(c, trace + [a])
      ensures again == (Retries(a) && |trace| < c.maxRetries)
      ensures JitterOk(a) && (a.Called? ==> a.outcome == outcome)
      ensures store.charged == Balance(Tokens, a) && (again ==> store.charged == 0)
      ensures again ==> Rested(a, c.req.cred)
      ensures trace != [] ==> NotAgain(trace[|trace| - 1], a) && (store.alone ==> NotTwice(trace[|trace| - 1], a))
      ensures store.alone ==> WaitsForItsDenial(a)
    {
      hide Script, Store.Sound, Store.Heard;
      a := TryOnce(c, outcome, sample, elapsed);
      again := Retries(a) && |trace| < c.maxRetries;
      if again {
        store.Sleep(Wait(a, |trace|));
      }
      ScriptGrows(c, start, trace, a);
    }

    /** The loop, from a fresh mark. */
    method RunAttempts(c: Call, outcomes: nat -> Outcome, samples: nat -> real, elapsed: nat -> real)
      returns (trace: seq<Attempt>)
      requires Wired() && store.Valid() && !store.awaiting && store.Pc().Idle?
      requires c.req.cred == store.account && store.charged == 0
      requires forall n :: 0.0 <= samples(n) <= 1.0
      modifies store`s, store`circuits, store`schedule, store`traffic, store`latest, store`awaiting
      modifies store`charged, store`journal
      ensures store.Valid() && !store.awaiting && store.Pc().Idle?
      ensures store.charged == if trace == [] then 0 else Balance(Tokens, trace[|trace| - 1])
      ensures Stopped(c, trace) && Faithful(trace, outcomes)
      ensures store.journal == old(store.journal) + Script(c, trace)
      ensures Patient(trace) && (store.alone ==> PatientAlone(trace))
    {
      hide Script, JitterOk, Retries, Store.Sound, Store.Heard;
      NothingYet(c);
      trace := [];
      while |trace| <= c.maxRetries
        invariant |trace| > 0 ==> |trace| <= c.maxRetries
        invariant store.Valid() && !store.awaiting && store.Pc().Idle? && store.charged == 0
        invariant store.journal == old(store.journal) + Script(c, trace)
        invariant Underway(trace) && Faithful(trace, outcomes)
        invariant Patient(trace) && (store.alone ==> PatientAlone(trace))
        invariant trace != [] ==> Rested(trace[|trace| - 1], c.req.cred)
        decreases c.maxRetries - |trace|
        modifies store`s, store`circuits, store`schedule, store`traffic, store`latest, store`awaiting
        modifies store`charged, store`journal
      {
        var n := |trace|;
        var a, again := Turn(c, old(store.journal), trace, outcomes(n), samples(n), elapsed(n));
        trace := trace + [a];
        if !again {
          return;
        }
      }
    }

    /** `complete`.  The breakers' side of it: every command on them since the call began is in `store.traffic`. */
    method Complete(r: LlmRequest, outcomes: nat -> Outcome, samples: nat -> real, elapsed: nat -> real)
      returns (result: Result, trace: seq<Attempt>)
      requires Wired() && store.Valid() && !store.awaiting && store.Pc().Idle?
      requires forall n :: 0.0 <= samples(n) <= 1.0
      modifies store
      ensures store.Valid() && !store.awaiting && store.Pc().Idle?
      // the attempts made, what they did, and what came of them
      ensures GatewayTrace.Complete(CallFor(r, maxRetries), trace, result)
      ensures store.journal == old(store.journal) + Script(CallFor(r, maxRetries), trace)
      ensures Faithful(trace, outcomes)
      // no attempt is denied again by the deadline the one before it waited for
      ensures Patient(trace) && (old(store.schedule) == [] ==> PatientAlone(trace))
      // with nobody else at work, all the call leaves in the counters is the tokens of its answer
      ensures old(store.schedule) == [] ==>
                CountersBack(old(store.s), store.s, CallFor(r, maxRetries).req.cred, Used(result))
      // the breakers are what all commands since make of them, and this call's operations are those of its attempts
      ensures store.circuits == BP.Run(store.tuning, old(store.circuits), store.traffic)
      ensures Accounted(
                store.tuning, old(store.circuits), store.traffic, store.me, CallFor(r, maxRetries), trace, store.s.now)
      // with nobody else at work, each record is what the history of this call's operations makes of it
      ensures old(store.schedule) == [] ==> OnlyBy(store.traffic, store.me) && forall key ::
                BP.In(store.circuits, key) ==
                  Breaker.Replay(store.tuning, BP.In(old(store.circuits), key),
                    BP.EventsFor(key, BP.Touches(store.tuning, old(store.circuits), store.traffic, store.me)))
    {
      hide Script, Reachable, GatewayTrace.Complete, CallFor, Accounted, CountersBack, Patient, PatientAlone;
      var c := CallFor(r, maxRetries);
      store.AtHand("");
      store.Listened(0);
      store.Mark(c.req.cred);
      trace := RunAttempts(c, outcomes, samples, elapsed);
      result := if trace == [] then Raised(LoopExhausted) else Verdict(c, trace[|trace| - 1]);
      CompleteRun(c, trace, result);
      TakeStock(c, trace, old(store.journal), old(store.circuits));
      if store.alone {
        LeavesItsTokens(c, old(store.s), Used(result));
      }
    }

    lemma CompleteRun(c: Call, trace: seq<Attempt>, result: Result)
      requires Stopped(c, trace)
      requires result == if trace == [] then Raised(LoopExhausted) else Verdict(c, trace[|trace| - 1])
      ensures GatewayTrace.Complete(c, trace, result)
      ensures Used(result) == if trace == [] then 0 else Balance(Tokens, trace[|trace| - 1])
    {
    }

    lemma LeavesItsTokens(c: Call, before: State, tokens: nat)
      requires store.Valid() && store.alone && store.Pc().Idle? && store.markState == before && Reachable(before)
      requires store.me < |before.callers| && before.callers[store.me].pc.Idle?
      requires store.account == c.req.cred && store.charged == tokens
      ensures CountersBack(before, store.s, c.req.cred, tokens)
    {
      hide Reachable, CountersBack;
      store.AtHand("");
      forall cred ensures OnlyMineAt(before, store.s, store.me, c.req.cred, tokens, cred) {
        store.AtHand(cred);
      }
      IdleLeavesNoTrace(before, store.s, store.me, c.req.cred, tokens);
    }

    /** What the store knows of the breakers at the end of a call. */
    lemma TakeStock(c: Call, trace: seq<Attempt>, before: seq<Op>, circuits: BP.Circuits)
      requires store.Valid() && !store.awaiting && store.me !in circuits.pending
      requires store.markCircuits == circuits && store.markJournal == |before|
      requires store.journal == before + Script(c, trace)
      ensures store.circuits == BP.Run(store.tuning, circuits, store.traffic)
      ensures Accounted(store.tuning, circuits, store.traffic, store.me, c, trace, store.s.now)
      ensures store.alone ==> OnlyBy(store.traffic, store.me)
      ensures store.alone ==> forall key ::
                BP.In(store.circuits, key) ==
                  Breaker.Replay(store.tuning, BP.In(circuits, key),
                    BP.EventsFor(key, BP.Touches(store.tuning, circuits, store.traffic, store.me)))
    {
      hide Script;
      store.AtHand("");
      store.Listened(0);
      assert store.journal[|before|..] == Script(c, trace);
      forall i | 0 <= i < |store.traffic|
        ensures store.traffic[i].Get? ==> store.traffic[i].event.time <= store.s.now
        ensures store.alone ==> store.traffic[i].k == store.me
      {
        store.Listened(i);
      }
      if store.alone {
        forall key ensures BP.In(store.circuits, key) ==
                  Breaker.Replay(store.tuning, BP.In(circuits, key),
                    BP.EventsFor(key, BP.Touches(store.tuning, circuits, store.traffic, store.me))) {
          BP.AloneReplays(store.tuning, circuits, store.traffic, store.me, key);
        }
      }
    }
  }
}

/** `ResearchBudget` (core/llm/budget.py): what a job has used, and when it must stop. */
module Budget {

  const FINALIZATION_RESERVE := 10000
  const UNLIMITED_HEADROOM := 999999999

  /** The limits that are checked; 0 is no limit. */
  datatype Limits = Limits(maxTotal: int, maxRequests: int, maxDuration: real, reserve: int)

  datatype Usage = Usage(tokensIn: nat, tokensOut: nat, requests: nat)
  {
    function Total(): nat {
      tokensIn + tokensOut
    }
  }

  datatype Spent = Spent(tokensIn: nat, tokensOut: nat)
  {
    function Size(): nat {
      tokensIn + tokensOut
    }
  }

  function Record(u: Usage, s: Spent): Usage {
    Usage(u.tokensIn + s.tokensIn, u.tokensOut + s.tokensOut, u.requests + 1)
  }

  function RecordAll(u: Usage, calls: seq<Spent>): Usage {
    if calls == [] then u else Record(RecordAll(u, calls[..|calls| - 1]), calls[|calls| - 1])
  }

  function AtLeastZero(n: int): int {
    if n > 0 then n else 0
  }

  function TokenHeadroom(lim: Limits, u: Usage): int {
    if lim.maxTotal <= 0 then UNLIMITED_HEADROOM else AtLeastZero(lim.maxTotal - u.Total())
  }

  function HeadroomAfterReserve(lim: Limits, u: Usage): int {
    AtLeastZero(TokenHeadroom(lim, u) - lim.reserve)
  }

  predicate ShouldStop(lim: Limits, u: Usage, elapsed: real) {
    || (lim.maxTotal > 0 && HeadroomAfterReserve(lim, u) <= 0)
    || (lim.maxRequests > 0 && u.requests >= lim.maxRequests - 2)
    || (lim.maxDuration > 0.0 && elapsed >= lim.maxDuration)
  }

  predicate CanAfford(lim: Limits, u: Usage, estimated: int) {
    lim.maxTotal <= 0 || HeadroomAfterReserve(lim, u) >= estimated
  }

  predicate HardExhausted(lim: Limits, u: Usage) {
    (lim.maxTotal > 0 && u.Total() >= lim.maxTotal) || (lim.maxRequests > 0 && u.requests >= lim.maxRequests)
  }

  class ResearchBudget {
    const lim: Limits
    const startedAt: real
    var usedInputTokens: nat
    var usedOutputTokens: nat
    var usedRequests: nat

    constructor (lim: Limits, startedAt: real)
      ensures this.lim == lim && this.startedAt == startedAt && Used() == Usage(0, 0, 0)
    {
      this.lim, this.startedAt := lim, startedAt;
      usedInputTokens, usedOutputTokens, usedRequests := 0, 0, 0;
    }

    function Used(): Usage
      reads this
    {
      Usage(usedInputTokens, usedOutputTokens, usedRequests)
    }

    method RecordCall(tokensIn: nat, tokensOut: nat)
      modifies this
      ensures Used() == Record(old(Used()), Spent(tokensIn, tokensOut))
    {
      usedInputTokens := usedInputTokens + tokensIn;
      usedOutputTokens := usedOutputTokens + tokensOut;
      usedRequests := usedRequests + 1;
    }

    /** `should_stop_exploring`, check by check. */
    method ShouldStopExploring(now: real) returns (stop: bool)
      ensures stop == ShouldStop(lim, Used(), now - startedAt)
    {
      if lim.maxTotal > 0 && HeadroomAfterReserve(lim, Used()) <= 0 {
        return true;
      }
      if lim.maxRequests > 0 && usedRequests >= lim.maxRequests - 2 {
        return true;
      }
      if lim.maxDuration > 0.0 && now - startedAt >= lim.maxDuration {
        return true;
      }
      return false;
    }
  }

  lemma {:induction false} UsageGrows(u: Usage, calls: seq<Spent>)
    ensures var v := RecordAll(u, calls);
            v.tokensIn >= u.tokensIn && v.tokensOut >= u.tokensOut && v.requests == u.requests + |calls|
  {
    if calls != [] {
      UsageGrows(u, calls[..|calls| - 1]);
    }
  }

  /** Exploration stops exactly when the reserve is reached, two requests are left, or the time is up. */
  lemma StopsIff(lim: Limits, u: Usage, elapsed: real)
    requires lim.reserve >= 0
    ensures ShouldStop(lim, u, elapsed)
       <==> || (lim.maxTotal > 0 && u.tokensIn + u.tokensOut + lim.reserve >= lim.maxTotal)
            || (lim.maxRequests > 0 && u.requests + 2 >= lim.maxRequests)
            || (lim.maxDuration > 0.0 && elapsed >= lim.maxDuration)
  {
  }

  /** A call is affordable exactly if it leaves the reserve, or costs nothing. */
  lemma AffordsIff(lim: Limits, u: Usage, estimated: int)
    requires lim.reserve >= 0
    ensures CanAfford(lim, u, estimated)
       <==> || lim.maxTotal <= 0 || estimated <= 0
            || u.tokensIn + u.tokensOut + estimated + lim.reserve <= lim.maxTotal
  {
  }

  /** Once the budget says stop it says so for good, whatever is recorded later. */
  lemma StopNeverReverts(lim: Limits, u: Usage, elapsed: real, calls: seq<Spent>, later: real)
    requires ShouldStop(lim, u, elapsed) && later >= elapsed
    ensures ShouldStop(lim, RecordAll(u, calls), later)
  {
    UsageGrows(u, calls);
  }

  /** Hard exhaustion implies that exploration has stopped, for every usage at every time: exactly if there is no
      token limit, or the reserve is not negative, or the request limit is one or two, which stops everything. */
  lemma ExhaustedImpliesStopIff(lim: Limits)
    ensures (forall u, elapsed :: HardExhausted(lim, u) ==> ShouldStop(lim, u, elapsed))
       <==> lim.maxTotal <= 0 || lim.reserve >= 0 || 1 <= lim.maxRequests <= 2
  {
    if lim.maxTotal > 0 && lim.reserve < 0 && !(1 <= lim.maxRequests <= 2) {
      // just out of tokens, with no request made and no time gone
      var u, elapsed := Usage(lim.maxTotal, 0, 0), 0.0;
      assert HardExhausted(lim, u) && !ShouldStop(lim, u, elapsed);
    }
  }

  /** Each call was let through by `can_afford` of what it then used. */
  ghost predicate Admitted(lim: Limits, u: Usage, calls: seq<Spent>) {
    forall k | 0 <= k < |calls| :: CanAfford(lim, RecordAll(u, calls[..k]), calls[k].Size())
  }

  lemma AdmittedCallFits(lim: Limits, u: Usage, s: Spent)
    requires lim.maxTotal > 0 && lim.reserve >= 0 && CanAfford(lim, u, s.Size())
    requires Intact(lim, u)
    ensures Intact(lim, Record(u, s))
  {
  }

  lemma AdmittedBefore(lim: Limits, u: Usage, calls: seq<Spent>)
    requires calls != [] && Admitted(lim, u, calls)
    ensures var n := |calls| - 1;
            Admitted(lim, u, calls[..n]) && CanAfford(lim, RecordAll(u, calls[..n]), calls[n].Size())
  {
    hide CanAfford, RecordAll;
    var n := |calls| - 1;
    forall k | 0 <= k < n ensures CanAfford(lim, RecordAll(u, calls[..n][..k]), calls[..n][k].Size()) {
      assert calls[..n][..k] == calls[..k];
    }
  }

  ghost predicate Intact(lim: Limits, u: Usage) {
    u.Total() == 0 || u.Total() + lim.reserve <= lim.maxTotal
  }

  lemma {:induction false} AdmittedKeepsReserve(lim: Limits, calls: seq<Spent>)
    requires lim.maxTotal > 0 && lim.reserve >= 0 && Admitted(lim, Usage(0, 0, 0), calls)
    ensures Intact(lim, RecordAll(Usage(0, 0, 0), calls))
  {
    hide Admitted, CanAfford;
    if calls != [] {
      var n := |calls| - 1;
      AdmittedBefore(lim, Usage(0, 0, 0), calls);
      AdmittedKeepsReserve(lim, calls[..n]);
      AdmittedCallFits(lim, RecordAll(Usage(0, 0, 0), calls[..n]), calls[n]);
    }
  }

  /** A negative reserve lets two calls in that together break it. */
  lemma {:induction false} NegativeReserveBreaks(lim: Limits) returns (calls: seq<Spent>)
    requires lim.maxTotal > 0 && lim.reserve < 0
    ensures Admitted(lim, Usage(0, 0, 0), calls) && !Intact(lim, RecordAll(Usage(0, 0, 0), calls))
  {
    hide RecordAll, Admitted;
    var none, first, second := Usage(0, 0, 0), Spent(lim.maxTotal - lim.reserve, 0), Spent(-lim.reserve, 0);
    assert CanAfford(lim, none, first.Size());
    var u := Record(none, first);
    assert u.tokensIn == lim.maxTotal - lim.reserve && u.tokensOut == 0;
    assert u.Total() == lim.maxTotal - lim.reserve;
    assert TokenHeadroom(lim, u) == 0;
    assert second.Size() == -lim.reserve;
    assert CanAfford(lim, u, second.Size());
    assert !Intact(lim, Record(Record(none, first), second));
    TwoCalls(lim, none, first, second);
    calls := [first, second];
  }

  lemma TwoCalls(lim: Limits, u: Usage, a: Spent, b: Spent)
    ensures RecordAll(u, [a, b]) == Record(Record(u, a), b)
    ensures CanAfford(lim, u, a.Size()) && CanAfford(lim, Record(u, a), b.Size()) ==> Admitted(lim, u, [a, b])
  {
    hide CanAfford, Record;
    assert [a, b][..0] == [] && [a, b][..1] == [a] && [a][..0] == [];
    assert RecordAll(u, [a]) == Record(u, a);
  }

  /** With every call admitted the finalization reserve is never touched: exactly if it is not negative. */
  lemma {:induction false} ReserveIntactIffNotNegative(lim: Limits)
    requires lim.maxTotal > 0
    ensures lim.reserve >= 0 <==>
              forall calls :: Admitted(lim, Usage(0, 0, 0), calls) ==> Intact(lim, RecordAll(Usage(0, 0, 0), calls))
  {
    if lim.reserve >= 0 {
      forall calls | Admitted(lim, Usage(0, 0, 0), calls) ensures Intact(lim, RecordAll(Usage(0, 0, 0), calls)) {
        AdmittedKeepsReserve(lim, calls);
      }
    } else {
      var calls := NegativeReserveBreaks(lim);
    }
  }

  /** A call that was not admitted eats into the reserve, or would if the reserve were whole. */
  lemma NotAdmittedBreaksReserve(lim: Limits, u: Usage, s: Spent)
    requires lim.maxTotal > 0 && lim.reserve >= 0 && !CanAfford(lim, u, s.Size())
    ensures Record(u, s).Total() + lim.reserve > lim.maxTotal
  {
  }

  /** The engine's own budget has no limits and never stops anything. */
  lemma UnlimitedNeverStops(u: Usage, elapsed: real)
    ensures !ShouldStop(Limits(0, 0, 0.0, FINALIZATION_RESERVE), u, elapsed)
    ensures !HardExhausted(Limits(0, 0, 0.0, FINALIZATION_RESERVE), u)
  {
  }
}

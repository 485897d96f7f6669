# Verified model of the Vanta research service

Vanta answers a research question by searching, fetching, extracting, synthesising and editing, with every
language-model call going through one shared gateway. This project models the parts whose correctness is not
visible in any single function, and proves what they promise.

The service is modelled in its own form. Redis counters, circuit records, the job row, the report, the token
budget and the client are state that methods change; the Lua scripts and the loops of the source are loops and
assignments here, each proved equal to a function or relation that the theorems are then about. Code that is an
expression in the source (the page query, the substitutions, the scores) is a function.

## How it is organised

**Gateway protocol.** `LimiterProtocol` is the rate limiter as a concurrent protocol: one Lua script or one Redis
command is one step, any number of callers interleave, the clock only grows. `LimiterLedger`, `LimiterWindow` and
`LimiterCooldown` prove what every run keeps, `LimiterSharp` that the bounds are met, `LimiterLimits` when a limit lets
a caller in and that each limit can be used up, and `LimiterLapse` what is left when keys lapse at any moment. `Breaker`
treats a circuit breaker as a function of its event history; `BreakerProtocol` is the breakers as they are shared, with
the GET of a record and the SET of the changed copy as two commands. `SharedStore` is the store one caller sees:
before each of its commands everybody else does whatever a schedule holds. `RateLimiter`, `CircuitBreaker` and
`Gateway` are the programs over that store, one command at a time; each command is shown to be one protocol step, so
the theorems about interleavings cover these programs at work among others; `Admission` says limit by limit what
`reserve` answers. `GatewayTrace` proves what follows for every sequence of attempts of the retry loop,
`GatewayBreakers` what the shared breakers let those attempts do, and `GatewayOutcomes` which breaker hears of what.

**Text.** `Substitution` and `Defang` (injection delimiters), `CitationText`, `Citations` and `CitationsExact`
(citation groups: the clean case, and every text), `Editor` (filler phrases and the citation guard), `Pipeline`
(verifier and editor in a row), `Compress` (greedy choice of paragraphs), `Dedup` (similar findings), `Synthesis`
(findings under a character budget). `Text`, `StableOrder` and `Selection` hold what they share. `TextMeaning`,
`CitationsSpelled`, `EditorSpelled`, `CompressMeaning` and `Labels` say the same functions place by place, with
characters, phrases and numbers written out, so that a changed definition does not go unnoticed.

**Sources, loop, cancellation, budget.** `Sources` is the cursor walk over the sources of a job, `ResearchLoop` the
loop of search rounds, `Cancel` the protocol between the API and the worker, `Budget` and `Client` the token
accounts, and `ClientKeys` what the cache key tells apart.

Inside a proof, `hide` keeps a definition that is not needed there from being unfolded. It changes no statement.

## Where code and documentation disagree

The model follows the code.

- `deduplicate_findings` says it prefers the higher trust score; it keeps whichever comes first.
- The editor's comment speaks of half the length; the guard asks for 15 words.
- The coordinator's prompt and the round limit speak of R rounds; the loop makes at most R - 1, and a limit of 1,
  the default of the brief mode, makes none (`ResearchLoop.RoundsUnderModes`).
- The final raise of `LLMGateway.complete` is called unreachable; it is reached exactly when `max_retries` is
  negative (`GatewayTrace.EveryGrantGivenBackOnce`).
- `should_stop_exploring` says "headroom below the reserve"; it also stops at equality.
- The formatter is said to respect its character budget; separators and the truncation notice come on top, and it is
  kept if and only if they fit, too (`Synthesis.TextLength`, with a text above it in `Synthesis.BudgetPassed`).
- A finished job is said not to be cancellable; one that finished with warnings is
  (`Cancel.EndedStatusIsFinalIff`).
- The greedy choice of paragraphs counts a separator behind each of them, so a paragraph that would fit with no more
  than one character to spare can be left out (`Compress.RoomLeftIff`, `Compress.WholeParagraphLeftOut`).

## Properties that hold only under a condition

- A running OPEN period of a breaker lasts in every interleaving if and only if no write is outstanding that was read
  before the breaker opened and says otherwise (`BreakerProtocol.SurvivesIffUndisturbed`); two callers are enough to
  lose one (`BreakerProtocol.LostOpening`). Under that condition no attempt of the gateway gets past a check inside the
  period (`GatewayBreakers.NoAttemptInsideOpenPeriod`), and with nobody else at work always
  (`GatewayBreakers.AloneNoAttemptInsideOpenPeriod`); without it one can, and call the provider
  (`GatewayBreakers.CalledInsideOpenPeriod`).
- Through a run in which keys lapse every limiter counter stays the sum of its holders' shares if and only if no key
  lapses while it counts something (`LimiterLapse.LedgerIffHarmless`). Otherwise counters can only be too low
  (`LimiterLapse.UnderAnyLapse`), even below zero (`LimiterLapse.LapseBeforeDecrement`), and no slot is lost for good
  (`LimiterLapse.NothingStaysTaken`).
- Citation cleaning can form a new group out of nested brackets (`Citations.NestedBracketsFormAGroup`). It is exact
  if and only if the text around the groups it removes forms no new one (`Citations.ExactIffFormsNoGroup`). The groups
  left are the old ones cut down if and only if there is no new group at all (`CitationsExact.GroupsAfterIff`), every
  group lists valid indices if and only if every new one does (`CitationsExact.OnlyValidIff`), and a second cleaning
  changes nothing if and only if every new one is written as the cleaning writes groups
  (`CitationsExact.IdempotentIff`, with a text it does change in `CitationsExact.SecondCleaningChanges`).
- Deleting filler never loses a citation tag but can make one (`Editor.DeletionCanMakeATag`): if and only if a
  bracketed stretch of the draft hides one (`Editor.CleaningMakesATagIff`). After verifier and editor every tag names a
  finding if and only if those of the accepted rewrite do, or, without one, those of the verified body and the hidden
  ones (`Pipeline.FinalTagsIff`).
- A cancel stands until the worker ends if and only if it does not fall between the worker's first read and its
  commit (`Cancel.CancelStandsIff`, `Cancel.LostCancel`). It is the last word if and only if the worker has ended, and
  in runs without an exception if and only if it has not started yet or has ended (`Cancel.CancelIsFinalIff`).
- A cached key is never paid for again, and keeps its answer, if and only if no call for it still waits for the
  gateway (`Client.PaidAgainIffWaiting`, `Client.AnswerKeptIffNoneWaits`); overlapping calls both pay
  (`Client.OverlappingCallsBothPay`).
- The text behind a cache key is a conversation's own if and only if it is at most one message that holds nothing that
  reads like the beginning of another (`ClientKeys.OwnKeyIff`, `ClientKeys.TwoConversationsOneKey`); conversations
  without a bar in their messages are told apart (`ClientKeys.KeysTellApart`).
- Removing thoughts leaves a reply as it is if and only if it holds no closed block of them
  (`EditorSpelled.UnchangedIffNoThoughts`); taking one out can close another around it
  (`EditorSpelled.RemovalMakesABlock`).
- The finalization reserve is kept by admitted calls if and only if it is not negative
  (`Budget.ReserveIntactIffNotNegative`); exhaustion implies the stop if and only if there is no token limit, the
  reserve is not negative, or the request limit is one or two (`Budget.ExhaustedImpliesStopIff`).
- Compressed text is within its limit if and only if the limit is not negative (`Compress.CompressSourceText`).

## Model

| member | source | states |
|---|---|---|
| LimiterLedger.RunKeepsLedger | core/llm/rate_limiter.py:181-300 | for every interleaving of any number of callers in which no key lapses while it counts something, each credential, provider and job counter is the sum over the reservations held or in progress, the credential caps hold, and tpm is outstanding estimates plus released actuals |
| LimiterLedger.StepKeeps | core/llm/rate_limiter.py:181-327 | each single script, command, expiry or clock step keeps that ledger |
| LimiterLedger.ReachableLedger | core/llm/rate_limiter.py:181-300 | the ledger holds in every state some interleaving leads to |
| LimiterLedger.ProviderOvershoot | core/llm/rate_limiter.py:238-248 | provider count plus callers between GET and INCR never passes cap - 1 plus the widest race so far, nor the number of callers; without a race the cap is exact |
| LimiterSharp.ProviderOvershootIsSharp | core/llm/rate_limiter.py:238-248 | both bounds are met: under any limits, for every provider and every width w, some run ends with exactly cap - 1 + w holders, as many as there are callers, and no race in it wider than w |
| LimiterLedger.JobOvershoot | core/llm/rate_limiter.py:250-260 | the same bounds for the per-job slots |
| LimiterSharp.JobOvershootIsSharp | core/llm/rate_limiter.py:250-260 | and they are met for every positive job limit and every width |
| LimiterLedger.ClampNeverFires | core/llm/rate_limiter.py:85-99 | in every state whose ledger holds, the guard on the active count passes and the clamp of tpm to 0 does not fire when a reservation is released |
| LimiterLedger.GuardsAlwaysPass | core/llm/rate_limiter.py:289-300 | in every such state a releasing caller finds its own slot counted, so no decrement is skipped |
| LimiterLedger.ReleasedExactlyOnce | core/llm/rate_limiter.py:242-300 | a caller outside reserve and release has given back exactly as many grants as it got; one holding a token has exactly one open |
| LimiterLedger.TpmLapse | core/llm/rate_limiter.py:70-73 | after the tpm key lapses the count is right if and only if no estimate is outstanding |
| LimiterLedger.IdleLeavesNoTrace | core/llm/rate_limiter.py:181-300 | a caller idle before and after leaves every counter as it was, but for its tokens in the tpm window |
| LimiterLedger.RefundExact | core/llm/rate_limiter.py:79-102 | the release script takes back one slot and moves tpm by actual minus estimate, nothing else |
| LimiterLapse.LedgerIffHarmless | core/llm/rate_limiter.py:70-73 | through a whole run in which the tpm, provider and job keys lapse at any moments, the ledger holds in each state if and only if no key lapses while it counts something |
| LimiterLapse.LapseKeepsIff | core/llm/rate_limiter.py:247-260 | one step keeps the ledger if and only if it is no such lapse |
| LimiterLapse.UnderAnyLapse | core/llm/rate_limiter.py:181-300 | whatever lapses whenever, the active counts stay exact, no provider or job counter is above the decrements still to come, and tpm lies between 0 and outstanding estimates plus released actuals |
| LimiterLapse.NothingStaysTaken | core/llm/rate_limiter.py:275-300 | so no lapse loses capacity for good: once every caller is idle no counter is above 0, but for the tokens of the window |
| LimiterLapse.LapseBeforeDecrement | core/llm/rate_limiter.py:289-293 | from an empty store, for any limits and any request without a job that the token limit lets through, a run of one caller in which the provider's key lapses between its GET and its DECR ends with the counter at -1; the lapse is not harmless and the ledger does not hold throughout |
| LimiterWindow.SlidingWindow | core/llm/rate_limiter.py:47-51 | each fixed rpm window holds at most max_rpm grants, any interval of a window's length at most twice that |
| LimiterWindow.RunKeepsWindow | core/llm/rate_limiter.py:65-69 | in every run windows start with their first grant, do not overlap, and the key counts exactly the grants of the last one |
| LimiterWindow.AtMostTwoWindows | core/llm/rate_limiter.py:65-69 | an interval of a window's length meets at most two windows |
| LimiterLimits.GrantedIff | core/llm/rate_limiter.py:41-76 | an idle caller's reserve script grants if and only if no cooldown lies after its stamp and each positive limit leaves room: one more request, the estimate, one more call; otherwise it changes nothing |
| LimiterLimits.FirstInTheWay | core/llm/rate_limiter.py:41-63 | a denial names the first of cooldown, rpm, tpm and active that is in the way, with the value found |
| LimiterLimits.ActiveReachesItsLimit | core/llm/rate_limiter.py:59-63 | under any limits whose request limit is not below it, some run ends with exactly max_concurrent callers of one credential holding a token |
| LimiterLimits.RequestsReachTheirLimit | core/llm/rate_limiter.py:47-51 | under any limits some run grants exactly max_rpm requests in one window |
| LimiterLimits.TokensReachTheirLimit | core/llm/rate_limiter.py:53-57 | under any limits some run has exactly max_tpm estimated tokens outstanding, by one call or by any number of equal ones that the other limits let in |
| LimiterLimits.ProviderDefaults | core/llm/rate_limiter.py:114-131 | sixteen slots for a provider, but eight or four for those that say so |
| LimiterCooldown.CooldownHolds | core/llm/rate_limiter.py:302-312 | after set_cooldown(s) at t nothing is granted up to t + s in any run that neither sets nor clears that cooldown, despite both floors |
| LimiterCooldown.RunUnderCooldown | core/llm/rate_limiter.py:41-45 | while a deadline lies ahead every run leaves the credential's grants as they are |
| LimiterCooldown.DeadlineCovers | core/llm/rate_limiter.py:306-311 | the stored deadline lies after t + s and at most 3 s later, and the key outlives it |
| LimiterCooldown.SleptEnough | core/llm/gateway.py:290-308 | a caller that sleeps at least the remaining time is not denied again by the same deadline, even with a stamp taken as soon as it wakes up |
| LimiterCooldown.Remaining | core/llm/rate_limiter.py:319-327 | the remaining time is never negative, positive exactly while a deadline lies ahead, and then it ends at that deadline |
| LimiterCooldown.AcceptedIff | core/llm/rate_limiter.py:306-311 | Redis takes a cooldown if and only if it is more than minus ten seconds long |
| LimiterCooldown.KeyLives | core/llm/rate_limiter.py:306-311 | the key of a cooldown that lies ahead lives nine to ten seconds longer than was asked for |
| SharedStore.LuaReserve | core/llm/rate_limiter.py:28-77 | the reserve script, command by command, answers the first limit that blocks and charges rpm, tpm and active only when none does |
| SharedStore.LuaRelease | core/llm/rate_limiter.py:79-102 | the release script, command by command, is the guarded decrement and the clamped reconciliation |
| SharedStore.ReserveScript | core/llm/rate_limiter.py:214-230 | the script run by one caller is one step of the protocol |
| SharedStore.ReleaseScript | core/llm/rate_limiter.py:264-273 | so is the release script, at the end of a reservation or as a roll-back |
| SharedStore.ReadProvider | core/llm/rate_limiter.py:240-241 | GET of a provider counter is one step that only this caller notices |
| SharedStore.BumpProvider | core/llm/rate_limiter.py:247-293 | INCR or DECR of a provider counter is one step, allowed exactly where the source issues it |
| SharedStore.ReadJob | core/llm/rate_limiter.py:252-253 | GET of a job counter is one step |
| SharedStore.BumpJob | core/llm/rate_limiter.py:259-300 | INCR or DECR of a job counter is one step |
| SharedStore.PutCooldown | core/llm/rate_limiter.py:306-311 | SET of a cooldown is one step, refused by Redis if the time to live is not positive |
| RateLimiter.RateLimiter.Reserve | core/llm/rate_limiter.py:181-262 | whatever the others do between its commands, reserve says allowed exactly when this caller now holds everything, and otherwise holds nothing; undisturbed, the reason is the first limit hit |
| Admission.AllowsIff | core/llm/rate_limiter.py:181-262 | undisturbed, reserve allows a call if and only if no cooldown lies ahead, rpm, tpm and active leave room, the provider has a free slot and so has the job, where the call names one by an id that is not empty; a late denial names the slots that are taken |
| RateLimiter.RateLimiter.ReserveShared | core/llm/rate_limiter.py:238-262 | a late denial by the provider or job cap leaves the caller with nothing and its token released |
| RateLimiter.RateLimiter.ReserveJob | core/llm/rate_limiter.py:250-260 | a denial by the job cap takes back the credential charge and the provider slot |
| RateLimiter.RateLimiter.Release | core/llm/rate_limiter.py:275-300 | a token already released changes nothing; any other gives back every slot and charges exactly the actual tokens |
| RateLimiter.RateLimiter.ReleaseShared | core/llm/rate_limiter.py:289-300 | provider and job slots are given back whatever others do meanwhile |
| Breaker.ClosedCountsTheRun | core/llm/circuit_breaker.py:88-117 | in CLOSED the failure count is the run of failures since the last success and below the threshold |
| Breaker.OpensExactlyAtThreshold | core/llm/circuit_breaker.py:100-110 | a closed breaker opens exactly on a forced failure or on the failure that completes the run |
| Breaker.OpenPeriod | core/llm/circuit_breaker.py:76-84 | in every history of operations that do not overlap, an OPEN period lasts at least half_open_after whatever is recorded meanwhile |
| Breaker.HalfOpenMeansProbing | core/llm/circuit_breaker.py:76-98 | HALF_OPEN goes back to a check after the OPEN period, with no failure since and as many probes counted as successes |
| Breaker.RecoveryNeedsSuccesses | core/llm/circuit_breaker.py:88-98 | from OPEN, CLOSED is reached only through success_threshold successes in HALF_OPEN without a failure between |
| Breaker.RecoveryHappens | core/llm/circuit_breaker.py:90-94 | and exactly when the last of them arrives, into a fresh record |
| Breaker.FailedProbeStartsAPeriod | core/llm/circuit_breaker.py:111-114 | a failed probe costs a whole new OPEN period: whatever is recorded within half_open_after of it, the breaker stays OPEN and lets nobody pass |
| Breaker.TurnedAwayIff | core/llm/circuit_breaker.py:71-86 | after any history nobody is let through if and only if a failure opened the breaker, it has been OPEN ever since, and less than half_open_after has gone |
| Breaker.CheckAfterPeriod | core/llm/circuit_breaker.py:76-84 | a check at the end of the period or later is let through and leaves the breaker HALF_OPEN with no success counted |
| Breaker.AdmitsUntilAFailure | core/llm/circuit_breaker.py:71-98 | a breaker that is not OPEN lets everybody through at any time until a failure is recorded |
| Breaker.ClosesIffEnoughSuccesses | core/llm/circuit_breaker.py:88-98 | until then a HALF_OPEN breaker is CLOSED if and only if the missing successes have been recorded, and else counts them |
| Breaker.RecoveryIsAttainable | core/llm/circuit_breaker.py:71-98 | once the period is over a check and a success, success_threshold times over, are each let through and end in a fresh record |
| BreakerProtocol.SurvivesIffUndisturbed | core/llm/circuit_breaker.py:132-146 | with GET and SET as two commands of any number of callers, a running OPEN period lasts in every interleaving if and only if no write is outstanding that was read before the opening and says otherwise |
| BreakerProtocol.PeriodSurvives | core/llm/circuit_breaker.py:71-117 | reads made inside an OPEN period leave nothing to write that would end it |
| BreakerProtocol.LostOpening | core/llm/circuit_breaker.py:88-117 | a success that read the closed record before another caller's failure opened the breaker writes the closed record back, and the next check passes at once |
| BreakerProtocol.PassedCheckIsAfter | core/llm/circuit_breaker.py:71-86 | whoever passes a check of a breaker that was OPEN at any earlier moment, with no such write outstanding, checks after its period |
| BreakerProtocol.RunKeepsRange | core/llm/circuit_breaker.py:71-117 | in no interleaving is a record closed at the failure threshold or half open at its quota of successes |
| BreakerProtocol.OneByOneReplays | core/llm/circuit_breaker.py:71-117 | operations that do not overlap leave what the history model says |
| BreakerProtocol.AloneReplays | core/llm/circuit_breaker.py:71-117 | with nobody else at work each record is what the history of this caller's operations makes of it |
| CircuitBreaker.KeysAreApart | core/llm/circuit_breaker.py:65-69 | no provider's breaker is a credential's, and each has its own |
| CircuitBreaker.CircuitBreaker.IsOpen | core/llm/circuit_breaker.py:71-86 | GET, then SET only for the step to HALF_OPEN, with others in between: open exactly if the record read is OPEN inside its period, and the journal shows the check as the protocol sees it |
| CircuitBreaker.CircuitBreaker.RecordSuccess | core/llm/circuit_breaker.py:88-98 | GET, then SET of what a success makes of the record read, whatever the record has become meanwhile |
| CircuitBreaker.CircuitBreaker.RecordFailure | core/llm/circuit_breaker.py:100-117 | GET, then SET of what a failure makes of the record read |
| GatewayTrace.EveryGrantGivenBackOnce | core/llm/gateway.py:263-418 | for every sequence of attempts grants, give-backs and provider calls are equal in number and at most max_retries + 1, the tokens given back are those of the answer or none, and the final raise is reached only for a negative limit |
| GatewayTrace.ScriptBalances | core/llm/gateway.py:319-415 | the same sums for any prefix of attempts each of which was retried |
| GatewayTrace.AttemptBalances | core/llm/gateway.py:349-415 | each of the exits of one attempt gives back what it was granted exactly once |
| GatewayTrace.NothingUnguarded | core/llm/gateway.py:266-323 | every provider call comes right after both breakers let it pass and a reservation was granted |
| GatewayTrace.TotalSleepBounded | core/llm/gateway.py:83-92 | without cooldown or retry-after the sleeps of a call total at most the sum of min(2^(a+1), 64) + 1.5, which is 36 s for the default four retries |
| GatewayTrace.SleepsBounded | core/llm/gateway.py:88-92 | the bound for every prefix of attempts |
| GatewayTrace.WaitCoversHint | core/llm/gateway.py:291-292 | with a cooldown or a retry-after the wait covers it, and it is no longer than that or the delay asks for |
| GatewayTrace.DelaysDouble | core/llm/gateway.py:83-92 | the delays are 2, 4, 8, 16 and 32 seconds and 64 from then on |
| GatewayTrace.FourRetriesSleep | core/llm/gateway.py:83-92 | a call that uses up its four retries without a hint sleeps 32 to 36 seconds |
| GatewayOutcomes.RecordedOnce | core/llm/gateway.py:333-390 | for every trace the failures recorded on the provider's breaker number the attempts that found it unavailable, none forced; those on the credential's the other retryable and permanent errors and rate limits, forced exactly for an invalid key; each answer is one success on each; no other breaker is touched |
| GatewayOutcomes.OwnHistory | core/llm/gateway.py:266-390 | among all commands, whoever else is at work, a call's own operations on each breaker are those of its attempts in order |
| GatewayOutcomes.OutageOpensTheProvider | core/llm/gateway.py:387-390 | alone, a call all of whose attempts find the provider down leaves the provider's breaker OPEN if and only if its failures reached the threshold, and the credential's record as it was |
| GatewayOutcomes.BadKeyOpensTheCredential | core/llm/gateway.py:354-356 | alone, a call that ends with an invalid key leaves the credential's breaker OPEN whatever it was, and without an outage a provider's record that was not OPEN as it was |
| GatewayOutcomes.GoesRoundIff | core/llm/gateway.py:308-405 | another attempt follows if and only if the limit is not reached and this one was denied, found the provider down, or met a trouble of the credential that is not permanent |
| GatewayOutcomes.HowItEnds | core/llm/gateway.py:266-415 | which result or exception the last attempt makes: the answer, which open breaker, which denial, which error |
| GatewayOutcomes.CooledDownAsAsked | core/llm/gateway.py:362-366 | the cooldowns a call sets are the retry-afters it got, in order, but for those of zero |
| GatewayOutcomes.JitterIff | core/llm/gateway.py:88-92 | the jitter is 0.5 to 1.5 seconds, or to 2 next to a retry-after |
| GatewayOutcomes.ClassifiedIff | core/llm/gateway.py:147-160 | which error a bare RuntimeError becomes, by the first marks its message has in any case |
| Gateway.EstimateTokens | core/llm/gateway.py:51-55 | the estimate is at least one and otherwise a quarter of the characters, rounded down |
| Gateway.WhatIsAsked | core/llm/gateway.py:255-261 | a request asks with its own credential and estimate where it names them, else with its provider's anonymous credential and the estimate of its messages |
| Gateway.MeetAtABreakerIff | core/llm/gateway.py:255-258 | two requests share a breaker if and only if they name the same provider, or the same credential, or none and the same provider |
| Gateway.UniformCovers | core/llm/gateway.py:88-92 | every jitter of that range is possible, and no other |
| Gateway.LLMGateway.Complete | core/llm/gateway.py:242-418 | whatever the provider, the jitter and the other callers do, the call is a complete run of the attempt model, ends holding nothing, alone leaves only its answer's tokens in the counters, and is never denied again by the deadline the denial before waited for; its breaker operations among all commands are those of its attempts, and alone each breaker record at the end is the fold of them |
| GatewayBreakers.NoAttemptInsideOpenPeriod | core/llm/gateway.py:266-278 | if a breaker of the call was OPEN at any moment of the call before an attempt checked it, whoever opened it, this call included, and no write outstanding then would end that, the attempt gets past its check only after the period |
| GatewayBreakers.AloneNoAttemptInsideOpenPeriod | core/llm/gateway.py:266-278 | with nobody else at work no such write can be, so an attempt never gets past a breaker opened less than its period ago, by an earlier attempt or before the call |
| GatewayBreakers.TurnedAway | core/llm/gateway.py:266-278 | a call that begins and ends inside such a period of one of its breakers makes a check, or two, and nothing else |
| GatewayBreakers.CalledInsideOpenPeriod | core/llm/gateway.py:266-323 | with a stale write in between that is false: another caller's failure opens the breaker after the call began, the stale success closes it, and the call passes both checks and calls the provider inside the period |
| GatewayBreakers.ChecksOfAttempt | core/llm/gateway.py:266-278 | every attempt that was not turned away has passed a check of each breaker, and which commands those are |
| Gateway.LLMGateway.RunAttempts | core/llm/gateway.py:263-418 | the loop goes round only after a retryable error or a denial and stops at the limit, its journal is the script of its attempts, and no attempt after a cooldown denial is denied by the deadline that was waited for |
| Gateway.LLMGateway.Turn | core/llm/gateway.py:264-418 | one turn and its sleep: after a denial the deadline found is past when the turn ends, and the next turn is not denied by it |
| Gateway.LLMGateway.TryOnce | core/llm/gateway.py:264-415 | one turn does exactly the actions of its attempt and charges only a success |
| Gateway.LLMGateway.CallAndSettle | core/llm/gateway.py:319-415 | every exception branch and the finally together release the token exactly once |
| Gateway.LLMGateway.CoolDown | core/llm/gateway.py:362-368 | the rate-limit branch releases before the cooldown is set and the failure recorded |
| Gateway.LLMGateway.CheckCircuits | core/llm/gateway.py:266-278 | the provider's breaker is checked first, the credential's only if that passed, and nothing else is done |
| Substitution.NothingNew | core/security/content_sanitizer.py:54-57 | a substitution makes no marker: one in the result was in the input and is none of the replaced tokens |
| Substitution.FirstMatchReplaced | core/security/content_sanitizer.py:54-57 | text before the first match stays, the match is replaced, the rest is treated alike |
| Substitution.NoTokenNoChange | core/security/content_sanitizer.py:54-57 | a text without tokens is left alone |
| Defang.NoMarkerLeft | core/security/content_sanitizer.py:48-58 | for every input the output holds none of the nine markers |
| Defang.UnchangedIffClean | core/security/content_sanitizer.py:48-58 | a text is left alone if and only if it holds no marker |
| Defang.Idempotent | core/security/content_sanitizer.py:48-58 | defanging twice is defanging once |
| Defang.ScanStaysSilent | core/security/content_sanitizer.py:25-45 | the scanner's two delimiter signals never fire on a defanged text |
| Defang.WhatTakesItsPlace | core/security/content_sanitizer.py:54-57 | what each of the nine markers becomes by itself |
| CitationText.Reparse | core/research/agents/citation_verifier.py:51-51 | segments in which no pending bracket is closed read back as they are written |
| CitationText.ReadsBackIffFits | core/research/agents/citation_verifier.py:51-51 | and only those do |
| CitationText.UnparseParse | core/research/agents/citation_verifier.py:51-51 | reading a text into groups and characters loses nothing |
| Citations.ExactIffFormsNoGroup | core/research/agents/citation_verifier.py:51-56 | the verified body is the old one with each group cut to its valid indices or gone and no space before punctuation, if and only if leaving groups out forms no new one |
| Citations.NotNestedFormsNoGroup | core/research/agents/citation_verifier.py:51-56 | brackets that do not nest, in particular alternating ones, meet that condition |
| CitationsExact.GroupsAfterIff | core/research/agents/citation_verifier.py:37-51 | the groups left are the old ones in order, each cut to its distinct valid indices in their order, if and only if closing up the text forms no new group |
| CitationsExact.OnlyValidIff | core/research/agents/citation_verifier.py:33-56 | every group of the verified body lists distinct indices in 1..number of findings, at least one, if and only if every new group does |
| CitationsExact.IdempotentIff | core/research/agents/citation_verifier.py:51-56 | verifying again changes nothing if and only if every new group, its spaces tidied, is a list as the cleaning writes it |
| CitationsExact.VerifiedReads | core/research/agents/citation_verifier.py:51-56 | how the verified body reads, for every body: the segments cleaned, regrouped, without blank groups, regrouped, tidied |
| CitationsExact.ParseRegroups | core/research/agents/citation_verifier.py:51-54 | the text of any segments reads back with exactly the groups that its single characters form |
| CitationsExact.NotNestedNothingNew | core/research/agents/citation_verifier.py:51-56 | brackets that do not nest form no new group |
| CitationsExact.SecondCleaningChanges | core/research/agents/citation_verifier.py:51-56 | with five findings [[9]7] is cleaned to [7], and that to the empty text |
| Citations.NestedBracketsFormAGroup | core/research/agents/citation_verifier.py:51-51 | nested brackets turn into a group with an index no finding has |
| Citations.IndicesCount | core/research/agents/citation_verifier.py:33-34 | there are as many valid indices as findings |
| Citations.IndexNamesOne | core/research/agents/citation_verifier.py:33-34 | and each names one finding only |
| Citations.KeptInOrder | core/research/agents/citation_verifier.py:41-46 | a number is kept exactly if it is an index and has not occurred before, in the old order |
| Citations.NumbersOfListed | core/research/agents/citation_verifier.py:39-49 | a written list of numbers reads back as those numbers |
| Citations.CleanCitationMatch | core/research/agents/citation_verifier.py:37-49 | the loop over seen and valid_nums writes exactly the kept numbers |
| Citations.SubGroups | core/research/agents/citation_verifier.py:51-51 | the first substitution, match by match |
| Citations.CleanGroupsBySegs | core/research/agents/citation_verifier.py:51-51 | the first substitution replaces every group by its valid indices and touches nothing else |
| Citations.DropBlankBySegs | core/research/agents/citation_verifier.py:54-54 | the second removes exactly the blank groups |
| Citations.FixSpacingBySegs | core/research/agents/citation_verifier.py:56-56 | the third removes exactly the whitespace before punctuation outside groups |
| CitationsSpelled.FixSpacingKeeps | core/research/agents/citation_verifier.py:56-56 | the third substitution keeps, in order, exactly the characters that are not part of a run of whitespace directly before a full stop, comma, semicolon, colon, exclamation mark or question mark |
| CitationsSpelled.VerifiedClosesUp | core/research/agents/citation_verifier.py:55-56 | nowhere in a verified body does whitespace stand directly before one of the six marks |
| CitationsSpelled.OpensIff | core/research/agents/citation_verifier.py:51-51 | a citation group is an opening bracket, digits, commas and whitespace, and a closing bracket, and its content is what stands between |
| CitationsSpelled.NumbersAreTheDigitRuns | core/research/agents/citation_verifier.py:39-39 | the numbers of a group are its runs of digits, all of them, from left to right |
| CitationsSpelled.ListedAppends | core/research/agents/citation_verifier.py:49-49 | the kept numbers are written with a comma and a space between |
| Citations.VerifyCitations | core/research/agents/citation_verifier.py:28-98 | the agent stores the verified body and leaves the summary |
| Editor.Edit | core/research/agents/editor.py:42-90 | for every reply or failure the report is the accepted rewrite or the cleaned draft, the summary follows only an accepted one, and every citation tag of the draft is still there |
| Editor.DeleteKeepsTags | core/research/agents/editor.py:95-103 | deleting a filler phrase never touches a bracketed tag, single or listed |
| Editor.KeepsEveryTag | core/research/agents/editor.py:66-83 | whichever branch is taken no tag of the draft is lost |
| Editor.TagsOccur | core/research/agents/editor.py:67-68 | the tags found are exactly those that occur |
| Editor.CleanFillerRules | core/research/agents/editor.py:93-104 | the loop applies the five deletions in order |
| Editor.CleaningMakesATagIff | core/research/agents/editor.py:93-104 | the cleaning gives the draft a tag it did not have if and only if a bracketed stretch of it, with no bracket inside, is cut down to digits that are no tag yet |
| Editor.TagsOfDeleted | core/research/agents/editor.py:93-104 | the tags after any of the deletions, exactly: one for each bracketed stretch that they cut down to digits |
| Editor.TagsOfOneDeletion | core/research/agents/editor.py:93-104 | after one deletion: an opening bracket, matches one after the other or none, digits and a closing bracket |
| Editor.DeletionCanMakeATag | core/research/agents/editor.py:93-104 | a draft without the tag [1] that has it after the cleaning |
| EditorSpelled.TakenIff | core/research/agents/editor.py:48-71 | a rewrite is taken if and only if the draft has thirty words or more, the model answers, the edited answer has fifteen or more, and every tag of the draft occurs in it |
| EditorSpelled.DeletesTheMatches | core/research/agents/editor.py:95-103 | a deletion takes out, from left to right, the matches that begin at a word boundary of the text as it was, and nothing else |
| EditorSpelled.MatchedIsAMatch | core/research/agents/editor.py:95-101 | what it takes is a spelling of the phrase in any case, the comma where one may follow and does, and all the whitespace after it |
| EditorSpelled.FiveFillers | core/research/agents/editor.py:95-101 | the five phrases in their order |
| EditorSpelled.HeadlineIs | core/research/agents/editor.py:73-74 | the new summary is the text up to the first blank line without the hashes before and the whitespace around it |
| EditorSpelled.UnchangedIffNoThoughts | core/research/optimizer.py:225-232 | a reply is left as it is if and only if it holds no closed block of thoughts |
| EditorSpelled.RemovalMakesABlock | core/research/optimizer.py:225-232 | a reply from which the removal of one block leaves another |
| Pipeline.FinalTagsIff | core/research/engine.py:389-404 | after verifier and editor every tag names a finding if and only if those of the accepted rewrite do, or, if none is accepted, those of the verified body and those its stretches hide |
| Pipeline.Finish | core/research/engine.py:389-404 | the two agents in a row, and no tag of the verified body is lost |
| Pipeline.VerifiedTagsIff | core/research/agents/citation_verifier.py:51-56 | the tags of a verified body name findings if and only if the new groups that are tags do |
| Pipeline.InventedTagAccepted | core/research/agents/editor.py:66-72 | an accepted rewrite is accepted still with any tag of its own appended |
| Pipeline.DeletionBringsOneBack | core/research/agents/editor.py:93-104 | with no finding at all the verifier leaves no tag and the editor's cleaning brings one about |
| Compress.CompressSourceText | core/research/optimizer.py:73-131 | the result is the filtered text, the greedy choice or the cut text as the branches have it, and within the limit if and only if the limit is not negative |
| Compress.Choose | core/research/optimizer.py:117-123 | in ranking order a paragraph is chosen exactly if it fits behind the chosen ones ahead of it |
| Compress.RoomLeftIff | core/research/optimizer.py:117-131 | a paragraph left out of the ranked choice would still fit if and only if, somewhere in the ranking, the running total plus a paragraph is the limit or one less and the total does not grow from there on |
| Compress.HardlyFits | core/research/optimizer.py:117-131 | every paragraph left out uses up all of the limit but at most one character |
| Compress.UsedIsTotal | core/research/optimizer.py:117-131 | what the chosen paragraphs use up is the loop's running total at the end |
| Compress.WholeParagraphLeftOut | core/research/optimizer.py:117-131 | a lone paragraph of 31 characters is left out under a limit of 31, and the text is cut instead |
| Compress.GreedyIsUnique | core/research/optimizer.py:115-123 | the ranking determines the choice |
| Compress.FilteredFits | core/research/optimizer.py:86-96 | in the short branch the filtered text never exceeds the text, so its own truncation is unreachable |
| CompressMeaning.CandidatesAre | core/research/optimizer.py:98-101 | the candidates are, in order, the stripped parts of more than thirty characters that name none of the eleven phrases in any case, or all of that length if each names one |
| CompressMeaning.WhoRanksAhead | core/research/optimizer.py:103-115 | of two paragraphs one with two more of the query's words always ranks ahead, one with one more loses only to one of the first three from three or more places behind it, and with equally many the earlier is ahead |
| CompressMeaning.WhereItIsCut | core/research/optimizer.py:125-128 | a cut text keeps its first characters up to the limit, or ends at the last blank line among them if that lies behind four fifths of the limit |
| Selection.PickKeepsOrder | core/research/optimizer.py:130-131 | the chosen items come out as a subsequence in their old order |
| Selection.PickLength | core/research/optimizer.py:120-131 | the joined choice is two shorter than what the loop counted |
| StableOrder.Ranking | core/research/optimizer.py:115-115 | every index once, by falling key, equal keys in their old order |
| Text.SplitThenJoin | core/research/optimizer.py:87-90 | joining the parts of a split gives the text back |
| Text.PartsHaveNoBreak | core/research/optimizer.py:87-87 | and no part contains the separator |
| TextMeaning.WordsAreRuns | core/research/optimizer.py:103-103 | the words of a text are its maximal runs of three or more letters, digits and underscores |
| TextMeaning.StripsWhitespace | core/research/optimizer.py:87-87 | stripping takes the whitespace off both ends and nothing else |
| TextMeaning.LastBreakIsLast | core/research/optimizer.py:127-127 | the last blank line found is the last |
| TextMeaning.DecimalReadsBack | core/research/agents/citation_verifier.py:34-34 | an index is written as the decimal numeral of its number, without a leading zero |
| Dedup.DeduplicateFindings | core/research/optimizer.py:146-177 | the result is the subsequence of exactly those findings that have words and are below the threshold to every earlier kept one, with the shortcut for a list of at most one |
| Dedup.KeptAreApart | core/research/optimizer.py:167-175 | kept findings have words and are pairwise below the threshold |
| Dedup.KeptIsUnique | core/research/optimizer.py:157-177 | only one choice fits that rule |
| Dedup.Idempotent | core/research/optimizer.py:146-177 | deduplicating again changes nothing, shortcut included |
| Dedup.LabelMatchesCitation | core/research/agents/synthesizer.py:173-176 | label k + 1 is the finding's place in the citation list if and only if nothing before it was dropped |
| Dedup.Jaccard | core/research/optimizer.py:138-143 | similarity lies between 0 and 1 |
| Dedup.JaccardSymmetric | core/research/optimizer.py:138-143 | and is symmetric |
| Dedup.JaccardCounts | core/research/optimizer.py:138-143 | it is the words in common of the words together |
| Dedup.JaccardEnds | core/research/optimizer.py:138-143 | it is 1 exactly for the same words, and at least one, and 0 exactly for none in common |
| Dedup.SameWordsDropped | core/research/optimizer.py:162-175 | of two findings with the same words the later is dropped, under any threshold up to 1 |
| Dedup.NothingDroppedAboveOne | core/research/optimizer.py:157-175 | and above 1 only findings without words are |
| Dedup.WordsOfFinding | core/research/optimizer.py:157-162 | the words of a finding are those of its facts and those of its summary, in lower case |
| Synthesis.FindingsAsText | core/research/agents/synthesizer.py:244-270 | the text shows the longest prefix of the newest-round-first order within the budget, back in list order, with the notice exactly if something is missing |
| Synthesis.NewestFirst | core/research/agents/synthesizer.py:250-262 | if a finding is shown, so is every one of a later round and every earlier one of its own |
| Synthesis.TextLength | core/research/agents/synthesizer.py:258-268 | exactly n blocks are shown, and the text is as long as blocks, separators and notice together: within the budget if and only if these fit |
| Synthesis.BudgetPassed | core/research/agents/synthesizer.py:258-268 | two findings of half the budget each are both shown, in two characters more than the budget |
| Synthesis.ShowsOne | core/research/agents/synthesizer.py:244-270 | the findings determine how many are shown and the text |
| Synthesis.AllShown | core/research/agents/synthesizer.py:258-260 | everything is shown if and only if everything fits |
| Synthesis.Select | core/research/agents/synthesizer.py:252-262 | the loop stops before the first block that does not fit |
| Labels.LabelIsItsIndex | core/research/agents/synthesizer.py:252-256 | a block begins with a citation group of the finding's own index, which the verifier keeps if and only if the list has that place |
| Labels.WhatIsShown | core/research/agents/synthesizer.py:252-256 | a block gives label, address, the summary and the first 300 characters of the evidence, or without both the first 400 of the facts |
| Labels.ThirtyThousand | core/research/agents/synthesizer.py:258-268 | all blocks are shown if and only if they come to no more than thirty thousand characters, and a text that leaves some out says so first |
| Sources.WalkDescends | api/routes/sources.py:35-57 | whatever is inserted or deleted between pages, a walk goes strictly down, so no row comes twice |
| Sources.WalkMissesNothing | api/routes/sources.py:26-57 | a finished walk has returned every row that was there at each page |
| Sources.WalkIsSortedList | api/routes/sources.py:26-57 | over a table that stands still the pages are the plain sorted list |
| Sources.WalkFinishes | api/routes/sources.py:42-48 | the walk ends as soon as the page sizes add up to the number of rows |
| Sources.HasMoreIffRowsRemain | api/routes/sources.py:46-48 | has_more is true if and only if a row remains |
| Sources.PageIsPrefix | api/routes/sources.py:42-57 | a page is the first rows of the sorted list behind the cursor and its cursor names the last of them |
| Sources.WalkIsNewestFirst | api/routes/sources.py:35-42 | of two rows of a walk the first was fetched later, or at the same time with the id that comes later by its characters: the other is a proper prefix or has the smaller character where they first differ |
| Sources.FirstPageIsNewest | api/routes/sources.py:35-48 | no row of the job outside the first page is newer than any row on it |
| Sources.LessOrders | api/routes/sources.py:37-42 | ids are totally ordered by their characters |
| ResearchLoop.RunLoop | core/research/engine.py:167-313 | for any answers, exceptions of the coordinator, the search agent and the callback included, the loop makes at most R - 1 rounds, each as its answers have it, and leaves by the first exit there is, with the state that exit leaves |
| ResearchLoop.SameUrlSameRound | core/research/engine.py:199-253 | two findings from one address are from one round |
| ResearchLoop.ReportedProgressRises | core/research/engine.py:298-304 | reported progress is positive, rises with every round and stays below 90 |
| ResearchLoop.RoundsUnderModes | core/research/engine.py:113-118 | no mode makes more than four search rounds, and exactly which limits make none |
| ResearchLoop.CollectUrls | core/research/engine.py:199-210 | the nested loops keep each new address once, at its first place, failed searches skipped |
| ResearchLoop.FreshIs | core/research/engine.py:200-210 | those are exactly the addresses found that have no finding yet |
| ResearchLoop.SearchRound | core/research/engine.py:191-253 | a round fetches at most ten distinct addresses without earlier findings and stamps what it finds with address and round |
| ResearchLoop.FoundInRound | core/research/engine.py:240-253 | a finding's round is the round that found it |
| ResearchLoop.EffectiveRounds | core/research/engine.py:114-118 | the limit never passes the cap of the mode, nor five |
| ResearchLoop.SearchesIff | core/research/agents/coordinator.py:37-41 | a turn searches if and only if nobody has cancelled, the round is before the last, the budget is left, the model, asked only with findings to show, says continue, and the search agent does not raise |
| ResearchLoop.StopsBecause | core/research/engine.py:170-192 | and which of the exits it takes otherwise |
| ResearchLoop.GoesOnIff | core/research/engine.py:255-313 | after a round the loop goes on if and only if the empty rounds in a row are below the limit, the callback does not raise, and it is too early for a report, there is none, or it does not satisfy |
| ResearchLoop.UndisturbedRunsOn | core/research/engine.py:167-313 | a run that nobody disturbs makes every round but the last and then stops for the report |
| ResearchLoop.FreshInOrder | core/research/engine.py:199-210 | each new address comes where it was first hit |
| ResearchLoop.ModesAllow | core/research/engine.py:113-118 | the default and the cap of each mode, and that a wish for rounds is met up to the cap |
| ResearchLoop.ProgressIsTheShare | core/research/engine.py:298-304 | reported progress is the share of ninety that has been done, rounded down |
| Cancel.AfterCancel | core/queue/tasks.py:25-69 | after a cancel, with the API's read and write as two steps, in every run at most one more search round begins and only a callback that had already read the row can still commit |
| Cancel.RowsStayAfterCancel | core/queue/tasks.py:25-69 | with no callback in that window no row is written after a cancel and progress stands until the worker ends |
| Cancel.CancelStandsIff | core/queue/tasks.py:71-77 | a cancel stands in every run until the worker ends if and only if it does not fall between the worker's first read and its commit |
| Cancel.CancelIsFinalIff | core/queue/tasks.py:152-206 | cancelled is the last word in every run if and only if the worker has ended, and in every run without an exception if and only if it has not started yet or has ended |
| Cancel.LostCancel | core/queue/tasks.py:71-77 | a cancel lost that way changes nothing of any later run |
| Cancel.EndedStatusIsFinalIff | api/routes/research.py:278-285 | once the worker has ended its status is final in every run if and only if it is cancelled, or completed or failed with no API call between its read and its write; completed with warnings is not |
| Cancel.HowJobsEnd | core/queue/tasks.py:71-206 | in every run from the beginning a worker that has ended leaves a finished job with a final status, a completed one at a hundred per cent, and rows are only written by callbacks, at most one a round |
| Cancel.CancelResearchJob | api/routes/research.py:270-285 | 404, 409 or 204, and the row is changed only for the last |
| Cancel.Worker.OnProgress | core/queue/tasks.py:25-69 | the callback is the two protocol steps read and commit |
| Budget.StopNeverReverts | core/llm/budget.py:78-98 | once exploration must stop it must stop for good |
| Budget.ExhaustedImpliesStopIff | core/llm/budget.py:78-112 | hard exhaustion implies the stop for every usage at every time if and only if there is no token limit, the reserve is not negative, or the request limit is one or two |
| Budget.ReserveIntactIffNotNegative | core/llm/budget.py:74-104 | calls admitted by can_afford of their real size never touch the finalization reserve, if and only if it is not negative |
| Budget.NotAdmittedBreaksReserve | core/llm/budget.py:100-104 | a call that is not admitted would break the reserve |
| Budget.UnlimitedNeverStops | core/llm/budget.py:118-121 | a budget without limits never stops anything |
| Budget.StopsIff | core/llm/budget.py:78-98 | with a reserve that is not negative exploration stops if and only if the reserve is reached, two requests are left, or the time is up |
| Budget.AffordsIff | core/llm/budget.py:100-104 | and a call is affordable if and only if it leaves the reserve, or costs nothing |
| Budget.ResearchBudget.RecordCall | core/llm/budget.py:50-54 | a call adds its tokens and one request |
| Budget.ResearchBudget.ShouldStopExploring | core/llm/budget.py:78-98 | the checks in order answer exactly the stop condition |
| Client.TotalsCountPaid | core/llm/client.py:93-103 | however calls overlap, totals are the sums over the answers paid for, and the attached budget has recorded exactly those |
| Client.BudgetAgrees | core/llm/client.py:55-103 | a budget attached when it equals the totals agrees with them from then on, one request for each answer |
| Client.CacheIsHistory | core/llm/client.py:69-96 | whatever the cache holds, the gateway once answered for that key to a call that waited for it |
| Client.PaidAgainIffWaiting | core/llm/client.py:70-96 | a key in the cache is never paid for again in any run if and only if no call for it still waits for the gateway |
| Client.AnswerKeptIffNoneWaits | core/llm/client.py:70-96 | and exactly then it keeps its answer |
| Client.KeyPaidOnce | core/llm/client.py:70-96 | with the cache on, calls for a key that do not overlap pay for it at most once |
| Client.OverlappingCallsBothPay | core/llm/client.py:70-96 | two calls for a key that overlap both pay, and the later answer replaces the earlier |
| Client.HitsCountFound | core/llm/client.py:75-77 | the hit count is the number of lookups that found their answer |
| ClientKeys.OwnKeyIff | core/llm/client.py:71-73 | under one configuration a conversation shares the joined key with no other if and only if it is empty, or one message whose content holds no bar, word and colon |
| ClientKeys.KeysTellApart | core/llm/client.py:71-73 | keys without a colon in provider and model or a bar in a message determine the configuration and the conversation |
| ClientKeys.TwoConversationsOneKey | core/llm/client.py:71-77 | two questions, and one question that holds both, have one key |
| Client.LLMClient.Complete | core/llm/client.py:59-105 | lookup, wait, and answer, with whatever other tasks do meanwhile: a hit changes only the hit count, a miss is its lookup, the others' steps and its answer, an exception stores nothing |
| Client.LLMClient.Begin | core/llm/client.py:69-76 | up to the gateway: a hit, or the call waits with its key |
| Client.LLMClient.End | core/llm/client.py:91-103 | from the answer on: cache, totals and budget, or nothing after an exception |

## Left out

- LimiterLedger.RunKeepsLedger: a key that lapses while it counts something is not an event of these runs; LimiterLapse has it, and what then holds.
- LimiterLapse.UnderAnyLapse: a lapse may come at any moment; whether Redis has set a time to live on the key is not modelled.
- LimiterWindow.SlidingWindow: needs a window of positive length, as Redis does for its expiry.
- Gateway.LLMGateway.Complete: one clock serves everybody, and process crashes, task cancellation, callback exceptions and the breaker records' expiry of an hour are not modelled.
- ResearchLoop.RunLoop: progress is exact division, and an exception leaves the loop but what the caller of the loop makes of it is in Cancel only.
- Sources.WalkIsSortedList: ids compare character by character; a database collation that orders otherwise is not modelled.
- The mode without Redis and the breaker's in-process fallback, in which no limit is shared.
- Per-call provider limits and the ingestion of rate-limit headers.
- What the language model answers: every reply is arbitrary.
- Whitespace normalisation before compression; the proofs are for any normalised text.
- Digits, whitespace and case beyond ASCII in the regular expressions, and Unicode normalisation.
- Rounding of floating-point numbers: similarity, back-off, progress and the truncation threshold are exact.
- The entailment records of the citation verifier, which no later step reads.
- The cursor's base64 and JSON form (section 5 of RFC 4648): decoding is taken as the inverse of encoding.
- The digest of the cache key is taken as injective; the text it is a digest of is not, and ClientKeys says when.
- EditorSpelled.RemovalMakesABlock: when the removal leaves a block in general is not said; a second removal changes something exactly then.
- Prompts, briefs, plans, outlines, embeddings, HTTP, SQL, credentials, webhooks, quality scores, the frontend and the command line.

/**
 The search loop of `run_research` (core/research/engine.py) with the round guard
 of the coordinator, for whatever the agents, the search engine and the pages answer.
 */
module ResearchLoop {
  import opened Findings
  import opened Options

  datatype Mode = Research | Study | Brief | Deep

  function DefaultRounds(mode: Mode): int {
    match mode
    case Research => 3
    case Study => 2
    case Brief => 1
    case Deep => 4
  }

  function RoundsCap(mode: Mode): int {
    match mode
    case Research => 5
    case Study => 4
    case Brief => 2
    case Deep => 5
  }

  /** `effective_rounds`; 0 asks for the mode's default. */
  function EffectiveRounds(maxRounds: int, mode: Mode): (r: int)
    ensures r <= 5 && r <= RoundsCap(mode)
  {
    if maxRounds == 0 then DefaultRounds(mode)
    else if maxRounds < RoundsCap(mode) then maxRounds else RoundsCap(mode)
  }

  /** One search: an exception, or the addresses found. */
  datatype Search = Failed | Hits(urls: seq<string>)

  /** What an extractor says about a page, before it is stamped with address and round. */
  datatype Draft = Draft(title: string, facts: string, summary: string, evidence: string)

  /** What the coordinator says, or that it raises. */
  datatype Verdict = Continue | Synthesize | Raises

  /** Everything from outside in one turn of the loop; a page that is not in `pages` yields nothing. */
  datatype Answers = Answers(
    cancelled: bool,
    budgetLow: bool,
    model: Verdict,
    searchRaises: bool,
    searches: seq<Search>,
    pages: map<string, seq<Draft>>,
    report: string,
    callbackRaises: bool,
    satisfied: bool)

  datatype Stage = InCoordinator | InSearchAgent | InCallback

  /** How the loop ends; an exception in one of the stages leaves it, too. */
  datatype Reason = Cancelled | PastMax | BudgetLow | Coordinator | Dry | Satisfied | Raised(stage: Stage)

  /** A search round as it went; `progress` is what was reported, if the round got that far. */
  datatype Round = Round(number: int, urls: seq<string>, found: seq<Finding>, progress: int)

  class ResearchState {
    var maxRounds: int
    var currentRound: int
    var findings: seq<Finding>
    var evolvingReport: string

    constructor (maxRounds: int)
      ensures this.maxRounds == maxRounds && currentRound == 1 && findings == [] && evolvingReport == ""
    {
      this.maxRounds, currentRound, findings, evolvingReport := maxRounds, 1, [], "";
    }
  }

  // ---------------------------------------------------------------------------
  // One round
  // ---------------------------------------------------------------------------

  function Known(findings: seq<Finding>): set<string> {
    set f | f in findings :: f.url
  }

  /** All addresses of the searches that did not fail, in order. */
  function AllHits(searches: seq<Search>): seq<string> {
    if searches == [] then []
    else AllHits(searches[..|searches| - 1]) + match searches[|searches| - 1] case Failed => [] case Hits(urls) => urls
  }

  /** The ones not seen before, each at its first place. */
  function Fresh(seen: set<string>, hits: seq<string>): seq<string> {
    if hits == [] then []
    else
      var n := |hits| - 1;
      Fresh(seen, hits[..n]) + if hits[n] !in seen && hits[n] !in hits[..n] then [hits[n]] else []
  }

  ghost predicate Distinct(urls: seq<string>) {
    forall i, j | 0 <= i < j < |urls| :: urls[i] != urls[j]
  }

  lemma {:induction false} FreshIs(seen: set<string>, hits: seq<string>)
    ensures forall u :: u in Fresh(seen, hits) <==> u in hits && u !in seen
    ensures Distinct(Fresh(seen, hits))
  {
    if hits != [] {
      var n := |hits| - 1;
      FreshIs(seen, hits[..n]);
      assert hits == hits[..n] + [hits[n]];
    }
  }

  predicate FirstNew(seen: set<string>, hits: seq<string>, i: nat)
    requires i < |hits|
  {
    hits[i] !in seen && hits[i] !in hits[..i]
  }

  lemma FirstNewStays(seen: set<string>, hits: seq<string>, n: nat, i: nat)
    requires i < n <= |hits|
    ensures FirstNew(seen, hits[..n], i) <==> FirstNew(seen, hits, i)
  {
    assert hits[..n][..i] == hits[..i];
  }

  lemma FreshStep(seen: set<string>, hits: seq<string>)
    ensures hits == [] ==> Fresh(seen, hits) == []
    ensures hits != [] ==>
              var n := |hits| - 1;
              Fresh(seen, hits) == Fresh(seen, hits[..n]) + if FirstNew(seen, hits, n) then [hits[n]] else []
  {
  }

  /** Each new address comes where it was first hit. */
  lemma {:induction false} FreshInOrder(seen: set<string>, hits: seq<string>) returns (places: seq<nat>)
    ensures |places| == |Fresh(seen, hits)|
    ensures forall a | 0 <= a < |places| :: places[a] < |hits| && Fresh(seen, hits)[a] == hits[places[a]]
    ensures forall a, b | 0 <= a < b < |places| :: places[a] < places[b]
    ensures forall i | 0 <= i < |hits| :: i in places <==> FirstNew(seen, hits, i)
  {
    hide FirstNew, Fresh;
    FreshStep(seen, hits);
    places := [];
    if hits != [] {
      var n := |hits| - 1;
      places := FreshInOrder(seen, hits[..n]);
      forall i | 0 <= i < n ensures FirstNew(seen, hits[..n], i) <==> FirstNew(seen, hits, i) {
        FirstNewStays(seen, hits, n, i);
      }
      if FirstNew(seen, hits, n) {
        places := places + [n];
      }
    }
  }

  lemma {:induction false} FreshAppends(seen: set<string>, hits: seq<string>, u: string)
    ensures Fresh(seen, hits + [u]) == Fresh(seen, hits) + if u !in seen && u !in hits then [u] else []
  {
    assert (hits + [u])[..|hits|] == hits;
  }

  /** The inner loop: the addresses of one search. */
  method AddHits(known: set<string>, ghost hits: seq<string>, seen0: set<string>, urls0: seq<string>,
      found: seq<string>)
    returns (seen: set<string>, urls: seq<string>)
    requires urls0 == Fresh(known, hits) && forall u :: u in seen0 <==> u in known || u in hits
    ensures urls == Fresh(known, hits + found)
    ensures forall u :: u in seen <==> u in known || u in hits + found
  {
    hide Fresh;
    seen, urls := seen0, urls0;
    assert hits + found[..0] == hits;
    for i := 0 to |found|
      invariant urls == Fresh(known, hits + found[..i])
      invariant forall u :: u in seen <==> u in known || u in hits + found[..i]
    {
      assert hits + found[..i + 1] == hits + found[..i] + [found[i]];
      FreshAppends(known, hits + found[..i], found[i]);
      if found[i] !in seen {
        urls := urls + [found[i]];
        seen := seen + {found[i]};
      }
    }
    assert found[..|found|] == found;
  }

  /** Steps 2 and 3: the loops that collect addresses, in the order of the results. */
  method CollectUrls(findings: seq<Finding>, searches: seq<Search>) returns (urls: seq<string>)
    ensures urls == Fresh(Known(findings), AllHits(searches))
  {
    hide Fresh, Known;
    var known := Known(findings);
    var seen := known;
    urls := [];
    NothingFresh(known);
    for k := 0 to |searches|
      invariant urls == Fresh(known, AllHits(searches[..k]))
      invariant forall u :: u in seen <==> u in known || u in AllHits(searches[..k])
    {
      assert searches[..k + 1][..k] == searches[..k];
      match searches[k] {
        case Failed =>
          assert AllHits(searches[..k + 1]) == AllHits(searches[..k]);
        case Hits(found) =>
          seen, urls := AddHits(known, AllHits(searches[..k]), seen, urls, found);
      }
    }
    assert searches[..|searches|] == searches;
  }

  lemma NothingFresh(known: set<string>)
    ensures Fresh(known, []) == []
  {
  }

  /** The findings of one page, stamped with its address and the round. */
  function Stamped(url: string, drafts: seq<Draft>, round: int): (r: seq<Finding>)
    ensures |r| == |drafts|
    ensures forall i | 0 <= i < |r| ::
              && r[i].url == url && r[i].round == round
              && Draft(r[i].title, r[i].facts, r[i].summary, r[i].evidence) == drafts[i]
  {
    if drafts == [] then []
    else
      var d := drafts[0];
      [Finding(url, d.title, d.facts, d.summary, d.evidence, round)] + Stamped(url, drafts[1..], round)
  }

  function Harvest(urls: seq<string>, pages: map<string, seq<Draft>>, round: int): (r: seq<Finding>)
    ensures forall i | 0 <= i < |r| :: r[i].round == round && r[i].url in urls
  {
    if urls == [] then []
    else
      (if urls[0] in pages then Stamped(urls[0], pages[urls[0]], round) else []) + Harvest(urls[1..], pages, round)
  }

  /** Pages are harvested one after the other. */
  lemma {:induction false} HarvestAppends(urls: seq<string>, u: string, pages: map<string, seq<Draft>>, round: int)
    ensures Harvest(urls + [u], pages, round)
         == Harvest(urls, pages, round) + if u in pages then Stamped(u, pages[u], round) else []
  {
    hide Stamped;
    if urls == [] {
      assert urls + [u] == [u] && [u][1..] == [];
    } else {
      assert (urls + [u])[1..] == urls[1..] + [u];
      HarvestAppends(urls[1..], u, pages, round);
    }
  }

  /** At most ten pages are fetched in a round. */
  function FirstTen(urls: seq<string>): (r: seq<string>)
    ensures r <= urls && |r| == if |urls| < 10 then |urls| else 10
  {
    if |urls| <= 10 then urls else urls[..10]
  }

  /** `CoordinatorAgent.run`: the model is asked only in a round before the last, with findings to show. */
  function Decide(round: int, maxRounds: int, findings: seq<Finding>, model: Verdict): Verdict {
    if round >= maxRounds then Synthesize else if findings == [] then Continue else model
  }

  lemma NotYetLast(round: int, maxRounds: int, findings: seq<Finding>, model: Verdict)
    requires Decide(round, maxRounds, findings, model).Continue?
    ensures round < maxRounds
  {
  }

  function Progress(round: int, rounds: int): int
    requires rounds > 0
  {
    90 * round / rounds
  }

  // ---------------------------------------------------------------------------
  // The whole loop
  // ---------------------------------------------------------------------------

  /** The empty rounds since the last one that found something. */
  function TrailingEmpty(rounds: seq<Round>): nat {
    if rounds == [] || rounds[|rounds| - 1].found != [] then 0
    else 1 + TrailingEmpty(rounds[..|rounds| - 1])
  }

  function AllFound(rounds: seq<Round>): seq<Finding> {
    if rounds == [] then [] else AllFound(rounds[..|rounds| - 1]) + rounds[|rounds| - 1].found
  }

  /** What holds of the rounds made so far under a limit of `limit` rounds. */
  ghost predicate Rounds(rounds: seq<Round>, limit: int) {
    && |rounds| <= (if limit >= 1 then limit - 1 else 0)
    && (forall k | 0 <= k < |rounds| :: rounds[k].number == k + 1 && RoundOk(rounds, k))
    && (limit >= 1 ==> forall k | 0 <= k < |rounds| :: rounds[k].progress == Progress(k + 1, limit))
  }

  /** A round fetches at most ten distinct addresses that no earlier round got a finding from. */
  ghost predicate RoundOk(rounds: seq<Round>, k: nat)
    requires k < |rounds|
  {
    && |rounds[k].urls| <= 10 && Distinct(rounds[k].urls)
    && (forall f | f in rounds[k].found :: f.url in rounds[k].urls && f.round == rounds[k].number)
    && (forall f | f in AllFound(rounds[..k]) :: f.url !in rounds[k].urls)
  }

  /** What `run_research` was called with. */
  datatype Limits = Limits(rounds: int, minRounds: int, maxEmptyRounds: int)

  /** The exit a turn takes before it searches, if any. */
  function Before(a: Answers, round: int, limits: Limits, findings: seq<Finding>): Option<Reason> {
    if a.cancelled then Some(Cancelled)
    else if round > limits.rounds then Some(PastMax)
    else if a.budgetLow then Some(BudgetLow)
    else match Decide(round, limits.rounds, findings, a.model)
      case Raises => Some(Raised(InCoordinator))
      case Synthesize => Some(Coordinator)
      case Continue => if a.searchRaises then Some(Raised(InSearchAgent)) else None
  }

  /** The report after these rounds: written anew in each that found something. */
  function ReportAfter(rounds: seq<Round>, answers: nat -> Answers): string {
    if rounds == [] then ""
    else
      var n := |rounds| - 1;
      if rounds[n].found != [] then answers(n).report else ReportAfter(rounds[..n], answers)
  }

  /** The exit the last of these rounds takes, if any. */
  function After(rounds: seq<Round>, limits: Limits, answers: nat -> Answers): Option<Reason> {
    if rounds == [] then None
    else
      var n := |rounds| - 1;
      if rounds[n].found == [] && TrailingEmpty(rounds) >= limits.maxEmptyRounds then Some(Dry)
      else if answers(n).callbackRaises then Some(Raised(InCallback))
      else if n + 2 > limits.minRounds && ReportAfter(rounds, answers) != ""
          && answers(n).satisfied then Some(Satisfied)
      else None
  }

  /** Round k was reached without an exit, and went as the answers to turn k have it. */
  ghost predicate Ran(rounds: seq<Round>, limits: Limits, answers: nat -> Answers, k: nat)
    requires k < |rounds|
  {
    var a, found := answers(k), AllFound(rounds[..k]);
    && After(rounds[..k], limits, answers) == None && Before(a, k + 1, limits, found) == None
    && rounds[k].urls == FirstTen(Fresh(Known(found), AllHits(a.searches)))
    && rounds[k].found == Harvest(rounds[k].urls, a.pages, k + 1)
  }

  /** `why` is the first exit there was: the last round's, or the next turn's before it searches. */
  ghost predicate FirstExit(rounds: seq<Round>, limits: Limits, answers: nat -> Answers, why: Reason) {
    var after := After(rounds, limits, answers);
    Some(why) == if after.Some? then after else Before(answers(|rounds|), |rounds| + 1, limits, AllFound(rounds))
  }

  lemma {:induction false} RanStays(rounds: seq<Round>, r: Round, limits: Limits, answers: nat -> Answers)
    requires forall k | 0 <= k < |rounds| :: Ran(rounds, limits, answers, k)
    requires After(rounds, limits, answers) == None
    requires var a := answers(|rounds|);
             && Before(a, |rounds| + 1, limits, AllFound(rounds)) == None
             && r.urls == FirstTen(Fresh(Known(AllFound(rounds)), AllHits(a.searches)))
             && r.found == Harvest(r.urls, a.pages, |rounds| + 1)
    ensures forall k | 0 <= k < |rounds| + 1 :: Ran(rounds + [r], limits, answers, k)
  {
    hide Fresh, Known, AllHits, Harvest, FirstTen, Before, After, AllFound;
    var more := rounds + [r];
    assert more[..|rounds|] == rounds;
    forall k | 0 <= k < |rounds| ensures Ran(more, limits, answers, k) {
      assert Ran(rounds, limits, answers, k);
      assert more[..k] == rounds[..k];
    }
  }

  lemma NoRounds(limit: int)
    ensures Rounds([], limit) && AllFound([]) == [] && TrailingEmpty([]) == 0
  {
  }

  lemma {:induction false} RoundsGrow(rounds: seq<Round>, r: Round, limit: int)
    requires Rounds(rounds, limit) && r.number == |rounds| + 1 < limit
    requires |r.urls| <= 10 && Distinct(r.urls)
    requires forall f | f in r.found :: f.url in r.urls && f.round == r.number
    requires forall f | f in AllFound(rounds) :: f.url !in r.urls
    requires r.progress == Progress(|rounds| + 1, limit)
    ensures Rounds(rounds + [r], limit)
    ensures AllFound(rounds + [r]) == AllFound(rounds) + r.found
    ensures TrailingEmpty(rounds + [r]) == if r.found != [] then 0 else 1 + TrailingEmpty(rounds)
  {
    hide AllFound, TrailingEmpty, Progress, RoundOk;
    var more := rounds + [r];
    OneRoundMore(rounds, r);
    LastRoundOk(rounds, r);
    forall k | 0 <= k < |rounds| ensures more[k].number == k + 1 && RoundOk(more, k) {
      RoundOkStays(rounds, r, k);
    }
  }

  lemma RoundOkStays(rounds: seq<Round>, r: Round, k: nat)
    requires k < |rounds| && RoundOk(rounds, k)
    ensures RoundOk(rounds + [r], k)
  {
    assert (rounds + [r])[..k] == rounds[..k];
  }

  lemma LastRoundOk(rounds: seq<Round>, r: Round)
    requires |r.urls| <= 10 && Distinct(r.urls)
    requires forall f | f in r.found :: f.url in r.urls && f.round == r.number
    requires forall f | f in AllFound(rounds) :: f.url !in r.urls
    ensures RoundOk(rounds + [r], |rounds|)
  {
    assert (rounds + [r])[..|rounds|] == rounds;
  }

  lemma OneRoundMore(rounds: seq<Round>, r: Round)
    ensures AllFound(rounds + [r]) == AllFound(rounds) + r.found
    ensures TrailingEmpty(rounds + [r]) == if r.found != [] then 0 else 1 + TrailingEmpty(rounds)
  {
    assert (rounds + [r])[..|rounds|] == rounds;
  }

  /** Steps 2 and 3 of a turn: search, collect, fetch, extract. */
  method SearchRound(state: ResearchState, a: Answers) returns (urls: seq<string>, found: seq<Finding>)
    modifies state`findings
    ensures |urls| <= 10 && Distinct(urls) && forall f | f in old(state.findings) :: f.url !in urls
    ensures urls == FirstTen(Fresh(Known(old(state.findings)), AllHits(a.searches)))
    ensures found == Harvest(urls, a.pages, state.currentRound)
    ensures state.findings == old(state.findings) + found
  {
    var all := CollectUrls(state.findings, a.searches);
    FreshIs(Known(state.findings), AllHits(a.searches));
    urls := FirstTen(all);
    forall f | f in state.findings ensures f.url !in urls {
      assert f.url in Known(state.findings);
      assert forall u | u in urls :: u in all;
    }
    found := Harvest(urls, a.pages, state.currentRound);
    state.findings := state.findings + found;
  }

  lemma ReportGrows(rounds: seq<Round>, r: Round, answers: nat -> Answers)
    ensures ReportAfter(rounds + [r], answers)
         == if r.found != [] then answers(|rounds|).report else ReportAfter(rounds, answers)
  {
    assert (rounds + [r])[..|rounds|] == rounds;
  }

  /** The `while` loop with its exits in order; nothing ever sets `is_done`, so the loop has no other end. */
  method RunLoop(state: ResearchState, minRounds: int, maxEmptyRounds: int, answers: nat -> Answers)
    returns (rounds: seq<Round>, empty: int, why: Reason)
    requires state.currentRound == 1 && state.findings == [] && state.evolvingReport == ""
    modifies state
    ensures Rounds(rounds, state.maxRounds) && state.maxRounds == old(state.maxRounds)
    ensures state.findings == AllFound(rounds) && state.evolvingReport == ReportAfter(rounds, answers)
    ensures empty == TrailingEmpty(rounds)
    ensures var limits := Limits(state.maxRounds, minRounds, maxEmptyRounds);
            (forall k | 0 <= k < |rounds| :: Ran(rounds, limits, answers, k)) && FirstExit(rounds, limits, answers, why)
    ensures state.currentRound == if why.Dry? || why == Raised(InCallback) then |rounds| else |rounds| + 1
  {
    hide Rounds, AllFound, TrailingEmpty, Ran, Decide, Harvest, Fresh, FirstTen, AllHits, Progress, ReportAfter;
    ghost var limits := Limits(state.maxRounds, minRounds, maxEmptyRounds);
    rounds, empty := [], 0;
    NoRounds(state.maxRounds);
    NoReport(answers);
    while true
      invariant state.maxRounds == limits.rounds
      invariant state.currentRound == |rounds| + 1 && (rounds != [] ==> |rounds| < state.maxRounds)
      invariant Rounds(rounds, state.maxRounds) && state.findings == AllFound(rounds)
      invariant state.evolvingReport == ReportAfter(rounds, answers)
      invariant empty == TrailingEmpty(rounds) && After(rounds, limits, answers) == None
      invariant forall k | 0 <= k < |rounds| :: Ran(rounds, limits, answers, k)
      decreases state.maxRounds - |rounds|
    {
      var a := answers(|rounds|);
      if a.cancelled {
        return rounds, empty, Cancelled;
      }
      if state.currentRound > state.maxRounds {
        return rounds, empty, PastMax;
      }
      if a.budgetLow {
        return rounds, empty, BudgetLow;
      }
      match Decide(state.currentRound, state.maxRounds, state.findings, a.model) {
        case Raises => return rounds, empty, Raised(InCoordinator);
        case Synthesize => return rounds, empty, Coordinator;
        case Continue =>
      }
      NotYetLast(state.currentRound, state.maxRounds, state.findings, a.model);
      if a.searchRaises {
        return rounds, empty, Raised(InSearchAgent);
      }
      var urls, found := SearchRound(state, a);
      var round := Round(state.currentRound, urls, found, Progress(state.currentRound, state.maxRounds));
      RoundsGrow(rounds, round, state.maxRounds);
      RanStays(rounds, round, limits, answers);
      ReportGrows(rounds, round, answers);
      rounds := rounds + [round];
      if found == [] {
        empty := empty + 1;
        if empty >= maxEmptyRounds {
          return rounds, empty, Dry;
        }
      } else {
        empty := 0;
        state.evolvingReport := a.report;
      }
      if a.callbackRaises {
        return rounds, empty, Raised(InCallback);
      }
      state.currentRound := state.currentRound + 1;
      if state.currentRound > minRounds && state.evolvingReport != "" && a.satisfied {
        return rounds, empty, Satisfied;
      }
    }
  }

  lemma NoReport(answers: nat -> Answers)
    ensures ReportAfter([], answers) == ""
  {
  }

  // ---------------------------------------------------------------------------
  // What follows for every run
  // ---------------------------------------------------------------------------

  /** A finding's round is below that of any later round. */
  lemma {:induction false} FoundInRound(rounds: seq<Round>, limit: int, n: nat, f: Finding)
    requires Rounds(rounds, limit) && n <= |rounds| && f in AllFound(rounds[..n])
    ensures 1 <= f.round <= n && f in rounds[f.round - 1].found
  {
    assert n > 0;
    assert rounds[..n][..n - 1] == rounds[..n - 1] && rounds[..n][n - 1] == rounds[n - 1];
    assert RoundOk(rounds, n - 1);
    if f !in rounds[n - 1].found {
      FoundInRound(rounds, limit, n - 1, f);
    }
  }

  /** Two findings from the same address are from the same round. */
  lemma {:induction false} SameUrlSameRound(rounds: seq<Round>, limit: int, f: Finding, g: Finding)
    requires Rounds(rounds, limit) && f in AllFound(rounds) && g in AllFound(rounds) && f.url == g.url
    ensures f.round == g.round
  {
    hide Rounds, AllFound;
    assert rounds[..|rounds|] == rounds;
    FoundInRound(rounds, limit, |rounds|, f);
    FoundInRound(rounds, limit, |rounds|, g);
    if f.round < g.round {
      FoundEarlier(rounds, limit, f, g.round - 1);
    } else if g.round < f.round {
      FoundEarlier(rounds, limit, g, f.round - 1);
    }
  }

  lemma FoundEarlier(rounds: seq<Round>, limit: int, f: Finding, k: nat)
    requires Rounds(rounds, limit) && 1 <= f.round <= k < |rounds| && f in rounds[f.round - 1].found
    ensures f.url !in rounds[k].urls
    ensures forall g | g in rounds[k].found :: g.url != f.url
  {
    InPrefix(rounds, f, f.round - 1, k);
    assert RoundOk(rounds, k);
  }

  lemma {:induction false} InPrefix(rounds: seq<Round>, f: Finding, i: nat, k: nat)
    requires i < k <= |rounds| && f in rounds[i].found
    ensures f in AllFound(rounds[..k])
  {
    assert rounds[..k][..k - 1] == rounds[..k - 1] && rounds[..k][k - 1] == rounds[k - 1];
    if i < k - 1 {
      InPrefix(rounds, f, i, k - 1);
    }
  }

  lemma Multiples(b: int, x: int, y: int)
    requires b > 0 && x < y
    ensures b * x + b <= b * y
  {
    assert b * (y - x - 1) >= 0;
    assert b * (y - x - 1) == b * y - b * x - b;
  }

  lemma DivisionBounds(a: int, b: int, q: int)
    requires b > 0
    ensures a >= b * q ==> a / b >= q
    ensures a <= b * q ==> a / b <= q
  {
    var d := a / b;
    assert a == b * d + a % b;
    if d < q {
      Multiples(b, d, q);
    } else if d > q {
      Multiples(b, q, d);
    }
  }

  lemma {:induction false} ProgressRises(r: int, rounds: int)
    requires 1 <= r < rounds <= 90
    ensures 0 < Progress(r, rounds) < Progress(r + 1, rounds) <= 90
    ensures Progress(r, rounds) < 90
  {
    var q := Progress(r, rounds);
    assert rounds * q <= 90 * r;
    assert rounds * (q + 1) == rounds * q + rounds;
    DivisionBounds(90 * (r + 1), rounds, q + 1);
    DivisionBounds(90 * r, rounds, 1);
    DivisionBounds(90 * (r + 1), rounds, 90);
  }

  /** Reported progress rises with every round and stays below 90. */
  lemma {:induction false} ReportedProgressRises(rounds: seq<Round>, limit: int, i: nat, j: nat)
    requires Rounds(rounds, limit) && limit <= 90 && i <= j < |rounds|
    ensures 0 < rounds[i].progress <= rounds[j].progress < 90
    ensures i < j ==> rounds[i].progress < rounds[j].progress
  {
    ProgressRises(j + 1, limit);
    if i < j {
      ProgressRises(j, limit);
      ReportedProgressRises(rounds, limit, i, j - 1);
    }
  }

  /** What is reported is the share of ninety that has been done, rounded down. */
  lemma ProgressIsTheShare(r: int, rounds: int)
    requires rounds > 0
    ensures Progress(r, rounds) * rounds <= 90 * r < (Progress(r, rounds) + 1) * rounds
  {
    assert (Progress(r, rounds) + 1) * rounds == Progress(r, rounds) * rounds + rounds;
  }

  /** A caller's wish for rounds is met up to the mode's cap; without one the mode has its own. */
  lemma ModesAllow(maxRounds: int)
    ensures [DefaultRounds(Research), DefaultRounds(Study), DefaultRounds(Brief), DefaultRounds(Deep)] == [3, 2, 1, 4]
    ensures [RoundsCap(Research), RoundsCap(Study), RoundsCap(Brief), RoundsCap(Deep)] == [5, 4, 2, 5]
    ensures forall mode :: EffectiveRounds(0, mode) == DefaultRounds(mode)
    ensures forall mode :: maxRounds != 0 ==>
              EffectiveRounds(maxRounds, mode) in {maxRounds, RoundsCap(mode)}
              && EffectiveRounds(maxRounds, mode) <= maxRounds && EffectiveRounds(maxRounds, mode) <= RoundsCap(mode)
  {
  }

  /** A mode never allows more than four search rounds, and one that asks for a single round makes none. */
  lemma RoundsUnderModes(rounds: seq<Round>, maxRounds: int, mode: Mode)
    requires Rounds(rounds, EffectiveRounds(maxRounds, mode))
    ensures |rounds| <= 4
    ensures EffectiveRounds(maxRounds, mode) <= 1 <==>
              maxRounds < 0 || maxRounds == 1 || (maxRounds == 0 && mode.Brief?)
    ensures EffectiveRounds(maxRounds, mode) <= 1 ==> rounds == []
  {
  }

  // ---------------------------------------------------------------------------
  // When the loop goes on, and when it stops
  // ---------------------------------------------------------------------------

  /** A turn searches exactly if nobody has cancelled, the round is before the last, the budget is left, the model does
      not object where it is asked, which is only with findings to show, and the search agent does not raise. */
  lemma SearchesIff(a: Answers, round: int, limits: Limits, findings: seq<Finding>)
    ensures Before(a, round, limits, findings) == None
       <==> && !a.cancelled && round < limits.rounds && !a.budgetLow
            && (findings == [] || a.model.Continue?) && !a.searchRaises
  {
  }

  /** What stops it otherwise; a cancel comes first, then the budget, then the coordinator. */
  lemma StopsBecause(a: Answers, round: int, limits: Limits, findings: seq<Finding>)
    requires round <= limits.rounds
    ensures Before(a, round, limits, findings) == Some(Cancelled) <==> a.cancelled
    ensures Before(a, round, limits, findings) == Some(BudgetLow) <==> !a.cancelled && a.budgetLow
    ensures Before(a, round, limits, findings) == Some(Coordinator)
       <==> !a.cancelled && !a.budgetLow && (round == limits.rounds || (findings != [] && a.model.Synthesize?))
    ensures Before(a, round, limits, findings) == Some(Raised(InCoordinator))
       <==> !a.cancelled && !a.budgetLow && round < limits.rounds && findings != [] && a.model.Raises?
  {
  }

  /** The rounds since the last find number at least m exactly if the last m found nothing. */
  lemma {:induction false} TrailingIff(rounds: seq<Round>, m: nat)
    ensures TrailingEmpty(rounds) >= m
       <==> m <= |rounds| && forall k | |rounds| - m <= k < |rounds| :: rounds[k].found == []
  {
    if rounds == [] || m == 0 {
      assert rounds == [] ==> TrailingEmpty(rounds) == 0;
    } else {
      var n := |rounds| - 1;
      TrailingIff(rounds[..n], m - 1);
      assert rounds[n].found == [] ==> TrailingEmpty(rounds) == 1 + TrailingEmpty(rounds[..n]);
      assert forall k | 0 <= k < n :: rounds[..n][k] == rounds[k];
    }
  }

  /** The report is that of the last round that found something. */
  lemma {:induction false} ReportIsTheLast(rounds: seq<Round>, answers: nat -> Answers, k: nat)
    requires k < |rounds| && rounds[k].found != [] && forall i | k < i < |rounds| :: rounds[i].found == []
    ensures ReportAfter(rounds, answers) == answers(k).report
  {
    if k < |rounds| - 1 {
      ReportIsTheLast(rounds[..|rounds| - 1], answers, k);
    }
  }

  /** After a round the loop goes on exactly if the empty rounds in a row are below the limit, the callback does not
      raise, and it is too early for a report, or there is none, or it does not satisfy. */
  lemma GoesOnIff(rounds: seq<Round>, limits: Limits, answers: nat -> Answers)
    requires rounds != []
    ensures After(rounds, limits, answers) == None
       <==> && (rounds[|rounds| - 1].found != [] || TrailingEmpty(rounds) < limits.maxEmptyRounds)
            && !answers(|rounds| - 1).callbackRaises
            && (|rounds| < limits.minRounds || ReportAfter(rounds, answers) == "" || !answers(|rounds| - 1).satisfied)
  {
  }

  /** Nothing and nobody asks for an end. */
  predicate Undisturbed(a: Answers) {
    !a.cancelled && !a.budgetLow && a.model.Continue? && !a.searchRaises && !a.callbackRaises && !a.satisfied
  }

  /** A run that nobody disturbs, with patience for empty rounds, makes every round but the last and then stops for
      the report. */
  lemma UndisturbedRunsOn(rounds: seq<Round>, limits: Limits, answers: nat -> Answers, why: Reason)
    requires Rounds(rounds, limits.rounds) && FirstExit(rounds, limits, answers, why)
    requires limits.rounds >= 1 && limits.maxEmptyRounds >= limits.rounds && forall n :: Undisturbed(answers(n))
    ensures |rounds| == limits.rounds - 1 && why == Coordinator
  {
    hide Rounds, AllFound, TrailingEmpty, ReportAfter;
    MadeBelowLimit(rounds, limits.rounds);
    assert Undisturbed(answers(|rounds|));
    if rounds != [] {
      assert Undisturbed(answers(|rounds| - 1));
      TrailingAtMost(rounds);
      GoesOnIff(rounds, limits, answers);
    }
    SearchesIff(answers(|rounds|), |rounds| + 1, limits, AllFound(rounds));
  }

  lemma MadeBelowLimit(rounds: seq<Round>, limit: int)
    requires Rounds(rounds, limit) && limit >= 1
    ensures |rounds| <= limit - 1
  {
  }

  lemma {:induction false} TrailingAtMost(rounds: seq<Round>)
    ensures TrailingEmpty(rounds) <= |rounds|
  {
    TrailingIff(rounds, TrailingEmpty(rounds));
  }
}

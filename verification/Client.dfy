/**
 `LLMClient.complete` (core/llm/client.py): the cache, the token totals and the
 attached budget.  Between the lookup and the store the client waits for the
 gateway, and other tasks use it meanwhile.
 */
module Client {
  import opened Budget
  import opened Options

  datatype Message = Message(role: string, content: string)

  datatype Config = Config(provider: string, model: string)

  datatype Response = Response(content: string, tokensIn: nat, tokensOut: nat)

  function Texts(messages: seq<Message>): string {
    if messages == [] then ""
    else if |messages| == 1 then messages[0].role + ":" + messages[0].content
    else messages[0].role + ":" + messages[0].content + "|" + Texts(messages[1..])
  }

  /** What the cache key is a digest of. */
  function CacheKey(cfg: Config, messages: seq<Message>): string {
    cfg.provider + ":" + cfg.model + ":" + Texts(messages)
  }

  /** A client's state: with the usage of the attached budget, and the calls that wait for the gateway by their keys. */
  datatype State = State(
    enableCache: bool, cache: map<string, Response>, hits: nat, totalIn: nat, totalOut: nat,
    budget: Option<Usage>, waiting: map<nat, string>)

  /** One half of a call of task k: up to the gateway, or from its answer on; None is an exception. */
  datatype Event = Lookup(k: nat, key: string) | Answer(k: nat, answer: Option<Response>)

  predicate Hit(c: State, key: string) {
    c.enableCache && key in c.cache
  }

  function Store(c: State, key: string, r: Response): State {
    c.(cache := if c.enableCache then c.cache[key := r] else c.cache,
       totalIn := c.totalIn + r.tokensIn,
       totalOut := c.totalOut + r.tokensOut,
       budget := match c.budget case None => None case Some(u) => Some(Record(u, Spent(r.tokensIn, r.tokensOut))))
  }

  /** A task that waits asks nothing else before it is answered. */
  function Step(c: State, e: Event): State {
    match e
    case Lookup(k, key) =>
      if k in c.waiting then c
      else if Hit(c, key) then c.(hits := c.hits + 1)
      else c.(waiting := c.waiting[k := key])
    case Answer(k, answer) =>
      if k !in c.waiting then c
      else
        var d := c.(waiting := c.waiting - {k});
        if answer.None? then d else Store(d, c.waiting[k], answer.value)
  }

  function Run(c: State, events: seq<Event>): State {
    if events == [] then c else Step(Run(c, events[..|events| - 1]), events[|events| - 1])
  }

  /** An answer that is stored and paid for. */
  predicate Pays(c: State, e: Event) {
    e.Answer? && e.k in c.waiting && e.answer.Some?
  }

  /** What was paid, in order. */
  function Paid(c: State, events: seq<Event>): seq<Spent> {
    if events == [] then []
    else
      var n := |events| - 1;
      var e := events[n];
      Paid(c, events[..n]) +
      if Pays(Run(c, events[..n]), e) then [Spent(e.answer.value.tokensIn, e.answer.value.tokensOut)] else []
  }

  /** How often a key was paid for. */
  function PaidFor(c: State, events: seq<Event>, key: string): nat {
    if events == [] then 0
    else
      var n := |events| - 1;
      var before := Run(c, events[..n]);
      PaidFor(c, events[..n], key) + if Pays(before, events[n]) && before.waiting[events[n].k] == key then 1 else 0
  }

  function SumIn(spent: seq<Spent>): nat {
    if spent == [] then 0 else SumIn(spent[..|spent| - 1]) + spent[|spent| - 1].tokensIn
  }

  function SumOut(spent: seq<Spent>): nat {
    if spent == [] then 0 else SumOut(spent[..|spent| - 1]) + spent[|spent| - 1].tokensOut
  }

  class LLMClient {
    const config: Config
    const lowComplexityConfig: Option<Config>
    const enableCache: bool
    var cache: map<string, Response>
    var cacheHits: nat
    var totalTokensIn: nat
    var totalTokensOut: nat
    var budget: ResearchBudget?

    // the tasks suspended inside `complete`, each with its cache key
    var waiting: map<nat, string>

    constructor (config: Config, low: Option<Config>, enableCache: bool)
      ensures this.config == config && lowComplexityConfig == low
      ensures Value() == State(enableCache, map[], 0, 0, 0, None, map[])
    {
      this.config, lowComplexityConfig, this.enableCache := config, low, enableCache;
      cache, cacheHits, totalTokensIn, totalTokensOut, budget, waiting := map[], 0, 0, 0, null, map[];
    }

    ghost function Value(): State
      reads this, budget
    {
      State(enableCache, cache, cacheHits, totalTokensIn, totalTokensOut,
            if budget == null then None else Some(budget.Used()), waiting)
    }

    function Chosen(complexity: string): (c: Config)
      ensures complexity != "low" || lowComplexityConfig.None? ==> c == config
      ensures complexity == "low" && lowComplexityConfig.Some? ==> Some(c) == lowComplexityConfig
    {
      if complexity == "low" && lowComplexityConfig.Some? then lowComplexityConfig.value else config
    }

    method AttachBudget(b: ResearchBudget)
      modifies this`budget
      ensures budget == b && Value() == old(Value()).(budget := Some(b.Used()))
    {
      budget := b;
    }

    /** Up to the gateway: a hit, or the task waits. */
    method Begin(me: nat, key: string) returns (hit: Option<Response>)
      requires me !in waiting
      modifies this`cacheHits, this`waiting
      ensures Value() == Step(old(Value()), Lookup(me, key))
      ensures hit == if Hit(old(Value()), key) then Some(old(cache)[key]) else None
      ensures hit.None? ==> me in waiting && waiting[me] == key
    {
      if enableCache {
        if key in cache {
          cacheHits := cacheHits + 1;
          return Some(cache[key]);
        }
      }
      waiting := waiting[me := key];
      return None;
    }

    /** From the gateway's answer on. */
    method End(me: nat, answer: Option<Response>)
      requires me in waiting
      modifies this`cache, this`totalTokensIn, this`totalTokensOut, this`waiting, budget
      ensures Value() == Step(old(Value()), Answer(me, answer))
    {
      var key := waiting[me];
      waiting := waiting - {me};
      if answer.None? {
        return;
      }
      var result := answer.value;
      if enableCache {
        cache := cache[key := result];
      }
      totalTokensIn := totalTokensIn + result.tokensIn;
      totalTokensOut := totalTokensOut + result.tokensOut;
      if budget != null {
        budget.RecordCall(result.tokensIn, result.tokensOut);
      }
    }

    /** What other tasks do while `me` waits. */
    method Interfere(me: nat, others: seq<Event>)
      requires forall i | 0 <= i < |others| :: others[i].k != me
      modifies this`cache, this`cacheHits, this`totalTokensIn, this`totalTokensOut, this`waiting, budget
      ensures Value() == Run(old(Value()), others)
      ensures (me in waiting <==> me in old(waiting)) && (me in waiting ==> waiting[me] == old(waiting)[me])
    {
      for i := 0 to |others|
        invariant Value() == Run(old(Value()), others[..i])
        invariant (me in waiting <==> me in old(waiting)) && (me in waiting ==> waiting[me] == old(waiting)[me])
      {
        assert others[..i + 1][..i] == others[..i];
        match others[i] {
          case Lookup(k, key) =>
            if k !in waiting {
              var _ := Begin(k, key);
            }
          case Answer(k, answer) =>
            if k in waiting {
              End(k, answer);
            }
        }
      }
      assert others[..|others|] == others;
    }

    /** `complete`, with whatever other tasks do while it waits. */
    method Complete(me: nat, messages: seq<Message>, complexity: string, answer: Option<Response>, others: seq<Event>)
      returns (reply: Option<Response>)
      requires me !in waiting && forall i | 0 <= i < |others| :: others[i].k != me
      modifies this, budget
      ensures budget == old(budget) && me !in waiting
      ensures var key := CacheKey(Chosen(complexity), messages);
              if Hit(old(Value()), key) then reply == Some(old(cache)[key])
                  && Value() == Run(old(Value()), [Lookup(me, key)])
              else reply == answer && Value() == Run(old(Value()), [Lookup(me, key)] + others + [Answer(me, answer)])
    {
      var key := CacheKey(Chosen(complexity), messages);
      ghost var before := Value();
      RunOne(before, Lookup(me, key));
      reply := Begin(me, key);
      if reply.Some? {
        return;
      }
      RunSplit(before, [Lookup(me, key)], others);
      RunGrows(before, [Lookup(me, key)] + others, Answer(me, answer));
      Interfere(me, others);
      End(me, answer);
      reply := answer;
    }
  }

  lemma RunOne(c: State, e: Event)
    ensures Run(c, [e]) == Step(c, e)
  {
    assert [e][..0] == [];
  }

  lemma RunGrows(c: State, events: seq<Event>, e: Event)
    ensures Run(c, events + [e]) == Step(Run(c, events), e)
  {
    assert (events + [e])[..|events|] == events;
  }

  lemma {:induction false} RunSplit(c: State, a: seq<Event>, b: seq<Event>)
    ensures Run(c, a + b) == Run(Run(c, a), b)
  {
    if b == [] {
      assert a + b == a;
    } else {
      var n := |b| - 1;
      assert (a + b)[..|a + b| - 1] == a + b[..n];
      RunSplit(c, a, b[..n]);
    }
  }

  // ---------------------------------------------------------------------------
  // Over all runs, however calls overlap
  // ---------------------------------------------------------------------------

  lemma SumsOneMore(spent: seq<Spent>, s: Spent)
    ensures SumIn(spent + [s]) == SumIn(spent) + s.tokensIn && SumOut(spent + [s]) == SumOut(spent) + s.tokensOut
  {
    assert (spent + [s])[..|spent|] == spent;
  }

  lemma RecordOneMore(u: Usage, spent: seq<Spent>, s: Spent)
    ensures RecordAll(u, spent + [s]) == Record(RecordAll(u, spent), s)
  {
    assert (spent + [s])[..|spent|] == spent;
  }

  lemma NothingPaid(u: Usage)
    ensures SumIn([]) == 0 && SumOut([]) == 0 && RecordAll(u, []) == u
  {
  }

  /** The totals are the sums over the answers paid for, and an attached budget has recorded exactly those. */
  lemma {:induction false} TotalsCountPaid(c: State, events: seq<Event>)
    ensures var d := Run(c, events); var paid := Paid(c, events);
            && d.totalIn == c.totalIn + SumIn(paid) && d.totalOut == c.totalOut + SumOut(paid)
            && d.budget == (match c.budget case None => None case Some(u) => Some(RecordAll(u, paid)))
            && d.enableCache == c.enableCache
  {
    hide SumIn, SumOut, RecordAll;
    if events == [] {
      NothingPaid(if c.budget.Some? then c.budget.value else Usage(0, 0, 0));
    } else {
      var n := |events| - 1;
      TotalsCountPaid(c, events[..n]);
      var before, e := Paid(c, events[..n]), events[n];
      if Pays(Run(c, events[..n]), e) {
        var s := Spent(e.answer.value.tokensIn, e.answer.value.tokensOut);
        SumsOneMore(before, s);
        if c.budget.Some? {
          RecordOneMore(c.budget.value, before, s);
        }
      } else {
        assert before + [] == before;
      }
    }
  }

  /** Lookups of a task that does not wait, for a key in the cache. */
  function Found(c: State, events: seq<Event>): nat {
    if events == [] then 0
    else
      var n := |events| - 1;
      var before, e := Run(c, events[..n]), events[n];
      Found(c, events[..n]) +
      if e.Lookup? && e.k !in before.waiting && before.enableCache && e.key in before.cache then 1 else 0
  }

  /** The hit count is the number of lookups that found their answer; a client without a cache has none. */
  lemma {:induction false} HitsCountFound(c: State, events: seq<Event>)
    ensures Run(c, events).hits == c.hits + Found(c, events)
    ensures !c.enableCache ==> Found(c, events) == 0 && Run(c, events).cache == c.cache
  {
    TotalsCountPaid(c, events);
    if events != [] {
      hide Paid, SumIn, SumOut;
      HitsCountFound(c, events[..|events| - 1]);
      TotalsCountPaid(c, events[..|events| - 1]);
    }
  }

  /** A budget attached while its usage equals the totals agrees with them from then on, one request for each answer. */
  lemma {:induction false} BudgetAgrees(c: State, events: seq<Event>)
    requires c.budget.Some? && c.totalIn == c.budget.value.tokensIn && c.totalOut == c.budget.value.tokensOut
    ensures var d := Run(c, events);
            && d.budget.Some? && d.totalIn == d.budget.value.tokensIn && d.totalOut == d.budget.value.tokensOut
            && d.budget.value.requests == c.budget.value.requests + |Paid(c, events)|
  {
    hide SumIn, SumOut, RecordAll, Run, Paid;
    TotalsCountPaid(c, events);
    UsageIsSum(c.budget.value, Paid(c, events));
  }

  lemma {:induction false} UsageIsSum(u: Usage, spent: seq<Spent>)
    ensures var v := RecordAll(u, spent);
            && v.tokensIn == u.tokensIn + SumIn(spent) && v.tokensOut == u.tokensOut + SumOut(spent)
            && v.requests == u.requests + |spent|
  {
    if spent != [] {
      UsageIsSum(u, spent[..|spent| - 1]);
    }
  }

  /** Answer i was stored under `key`. */
  ghost predicate StoredAt(c: State, events: seq<Event>, i: nat, key: string, r: Response) {
    && i < |events| && Pays(Run(c, events[..i]), events[i])
    && Run(c, events[..i]).waiting[events[i].k] == key && events[i].answer.value == r
  }

  /** Whatever the cache holds, the gateway once answered for that key. */
  lemma {:induction false} CacheIsHistory(c: State, events: seq<Event>, key: string) returns (i: nat)
    requires c.cache == map[] && key in Run(c, events).cache
    ensures StoredAt(c, events, i, key, Run(c, events).cache[key])
  {
    var n := |events| - 1;
    var before := Run(c, events[..n]);
    if Pays(before, events[n]) && before.waiting[events[n].k] == key && before.enableCache {
      i := n;
    } else {
      i := CacheIsHistory(c, events[..n], key);
      assert events[..n][..i] == events[..i] && events[..n][i] == events[i];
    }
  }

  // ---------------------------------------------------------------------------
  // Paying twice
  // ---------------------------------------------------------------------------

  ghost predicate NoneWaits(c: State, key: string) {
    forall k | k in c.waiting :: c.waiting[k] != key
  }

  lemma {:induction false} CachedStays(c: State, events: seq<Event>, key: string)
    requires c.enableCache && key in c.cache && NoneWaits(c, key)
    ensures var d := Run(c, events);
            && d.enableCache && key in d.cache && d.cache[key] == c.cache[key] && NoneWaits(d, key)
            && PaidFor(c, events, key) == 0
  {
    if events != [] {
      CachedStays(c, events[..|events| - 1], key);
    }
  }

  lemma PaidForOne(c: State, e: Event, key: string)
    ensures PaidFor(c, [e], key) == if Pays(c, e) && c.waiting[e.k] == key then 1 else 0
  {
    assert [e][..0] == [];
  }

  /** A key in the cache is never paid for again in any run exactly if no call for it still waits. */
  lemma {:induction false} PaidAgainIffWaiting(c: State, key: string)
    requires c.enableCache && key in c.cache
    ensures (forall events :: PaidFor(c, events, key) == 0) <==> NoneWaits(c, key)
  {
    if NoneWaits(c, key) {
      forall events ensures PaidFor(c, events, key) == 0 {
        CachedStays(c, events, key);
      }
    } else {
      var k :| k in c.waiting && c.waiting[k] == key;
      PaidForOne(c, Answer(k, Some(Response("", 0, 0))), key);
    }
  }

  /** And exactly then it keeps its answer. */
  lemma {:induction false} AnswerKeptIffNoneWaits(c: State, key: string)
    requires c.enableCache && key in c.cache
    ensures (forall events :: key in Run(c, events).cache && Run(c, events).cache[key] == c.cache[key])
            <==> NoneWaits(c, key)
  {
    if NoneWaits(c, key) {
      forall events ensures key in Run(c, events).cache && Run(c, events).cache[key] == c.cache[key] {
        CachedStays(c, events, key);
      }
    } else {
      var k :| k in c.waiting && c.waiting[k] == key;
      var r := c.cache[key];
      RunOne(c, Answer(k, Some(r.(tokensIn := r.tokensIn + 1))));
      assert Run(c, [Answer(k, Some(r.(tokensIn := r.tokensIn + 1)))]).cache[key] != r;
    }
  }

  /** No call for `key` begins while another for it waits. */
  ghost predicate NoOverlap(c: State, events: seq<Event>, key: string) {
    forall i | 0 <= i < |events| && events[i].Lookup? && events[i].key == key :: NoneWaits(Run(c, events[..i]), key)
  }

  /** Paid for once it is cached and nobody waits for it; before that at most one call does. */
  ghost predicate OncePaid(c: State, key: string, times: nat) {
    && c.enableCache
    && (key in c.cache ==> times == 1 && NoneWaits(c, key))
    && (key !in c.cache ==> times == 0)
    && (key !in c.cache ==>
          forall j, k | j in c.waiting && k in c.waiting && c.waiting[j] == key && c.waiting[k] == key :: j == k)
  }

  lemma OncePaidStep(c: State, e: Event, key: string, times: nat)
    requires OncePaid(c, key, times) && (e.Lookup? && e.key == key ==> NoneWaits(c, key))
    ensures OncePaid(Step(c, e), key, times + if Pays(c, e) && c.waiting[e.k] == key then 1 else 0)
  {
  }

  /** Calls for a key that do not overlap pay for it at most once. */
  lemma {:induction false} KeyPaidOnce(c: State, events: seq<Event>, key: string)
    requires c.enableCache && key !in c.cache && NoneWaits(c, key) && NoOverlap(c, events, key)
    ensures OncePaid(Run(c, events), key, PaidFor(c, events, key)) && PaidFor(c, events, key) <= 1
  {
    if events != [] {
      hide OncePaid, Step, NoneWaits, Pays;
      var n := |events| - 1;
      forall i | 0 <= i < n && events[..n][i].Lookup? && events[..n][i].key == key
        ensures NoneWaits(Run(c, events[..n][..i]), key) {
        assert events[..n][..i] == events[..i] && events[..n][i] == events[i];
      }
      KeyPaidOnce(c, events[..n], key);
      OncePaidStep(Run(c, events[..n]), events[n], key, PaidFor(c, events[..n], key));
      AtMostOnce(Run(c, events), key, PaidFor(c, events, key));
    }
  }

  lemma AtMostOnce(c: State, key: string, times: nat)
    requires OncePaid(c, key, times)
    ensures times <= 1
  {
  }

  /** Two calls for a key that overlap both pay, and the later answer replaces the earlier. */
  lemma {:induction false} OverlappingCallsBothPay(c: State, key: string, a: nat, b: nat, first: Response,
      second: Response)
    requires c.enableCache && key !in c.cache && a != b && a !in c.waiting && b !in c.waiting
    ensures var events := [Lookup(a, key), Lookup(b, key), Answer(a, Some(first)), Answer(b, Some(second))];
            PaidFor(c, events, key) == 2 && key in Run(c, events).cache && Run(c, events).cache[key] == second
  {
    hide Run, PaidFor;
    var e0, e1, e2, e3 := Lookup(a, key), Lookup(b, key), Answer(a, Some(first)), Answer(b, Some(second));
    RunOne(c, e0);
    PaidForOne(c, e0, key);
    RunGrows(c, [e0], e1);
    PaidForGrows(c, [e0], e1, key);
    assert [e0] + [e1] == [e0, e1];
    RunGrows(c, [e0, e1], e2);
    PaidForGrows(c, [e0, e1], e2, key);
    assert [e0, e1] + [e2] == [e0, e1, e2];
    RunGrows(c, [e0, e1, e2], e3);
    PaidForGrows(c, [e0, e1, e2], e3, key);
    assert [e0, e1, e2] + [e3] == [e0, e1, e2, e3];
  }

  lemma PaidForGrows(c: State, events: seq<Event>, e: Event, key: string)
    ensures var before := Run(c, events);
            PaidFor(c, events + [e], key) == PaidFor(c, events, key) + if Pays(before, e)
                && before.waiting[e.k] == key then 1 else 0
  {
    assert (events + [e])[..|events|] == events;
  }
}

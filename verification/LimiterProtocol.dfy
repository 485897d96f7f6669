/**
 The rate limiter as a concurrent protocol (core/llm/rate_limiter.py).

 Any number of callers share one Redis store.  A Lua script or a single Redis
 command is one atomic step; between two commands of one caller every other
 caller may take any number of steps, and the clock only grows.
 */
module LimiterProtocol {
  import opened Options

  /** What one reservation asks for. */
  datatype Req = Req(cred: string, provider: string, job: Option<string>, est: nat)
  {
    // `if job_id:` treats an empty job id like a missing one
    predicate HasJob() {
      job.Some? && job.value != ""
    }
  }

  /** CredentialLimits and JobLimits; a limit of 0 is no limit. */
  datatype Limits = Limits(maxRpm: int, maxTpm: int, maxActive: int, window: int, maxJob: int)

  /** The per-provider defaults. */
  function ProviderCap(provider: string): int {
    if provider == "openai" then 16
    else if provider == "anthropic" then 8
    else if provider == "openrouter" then 8
    else if provider == "ollama" then 4
    else if provider == "groq" then 4
    else 16
  }

  predicate Full(cap: int, current: int) {
    cap > 0 && current >= cap
  }

  datatype RpmKey = RpmKey(count: int, expires: real)
  datatype Deadline = Deadline(until: int, expires: real)

  /** The Redis keys; a missing counter reads as 0. */
  datatype Db = Db(
    rpm: map<string, RpmKey>,
    tpm: map<string, int>,
    active: map<string, int>,
    cooldown: map<string, Deadline>,
    provider: map<string, int>,
    job: map<string, int>)

  function Get(m: map<string, int>, k: string): int {
    if k in m then m[k] else 0
  }

  function Credit(m: map<string, int>, k: string, n: nat): map<string, int> {
    if n == 0 then m else m[k := Get(m, k) + n]
  }

  function GetRpm(db: Db, c: string, now: real): int {
    if c in db.rpm && now < db.rpm[c].expires then db.rpm[c].count else 0
  }

  function GetCooldown(db: Db, c: string, now: real): Option<int> {
    if c in db.cooldown && now < db.cooldown[c].expires then Some(db.cooldown[c].until) else None
  }

  // ---------------------------------------------------------------------------
  // The two Lua scripts
  // ---------------------------------------------------------------------------

  /** `value` is what the script reports with the reason: the deadline, or the count that is too high. */
  datatype Reply = Granted | Blocked(reason: string, value: int)

  /** The checks of the reserve script; `stamp` is the caller's `int(time.time())`. */
  function Check(lim: Limits, db: Db, now: real, req: Req, stamp: int): Reply {
    var cooldown, rpm := GetCooldown(db, req.cred, now), GetRpm(db, req.cred, now);
    var tpm, active := Get(db.tpm, req.cred), Get(db.active, req.cred);
    if cooldown.Some? && cooldown.value > stamp then Blocked("cooldown", cooldown.value)
    else if Full(lim.maxRpm, rpm) then Blocked("rpm", rpm)
    else if lim.maxTpm > 0 && tpm + req.est > lim.maxTpm then Blocked("tpm", tpm)
    else if Full(lim.maxActive, active) then Blocked("active", active)
    else Granted
  }

  predicate ByCooldown(reply: Reply) {
    reply.Blocked? && reply.reason == "cooldown"
  }

  function BumpRpm(lim: Limits, db: Db, now: real, c: string): RpmKey {
    var count := GetRpm(db, c, now) + 1;
    RpmKey(count, if count == 1 then now + lim.window as real else db.rpm[c].expires)
  }

  function Charge(lim: Limits, db: Db, now: real, req: Req): Db {
    db.(rpm := db.rpm[req.cred := BumpRpm(lim, db, now, req.cred)],
        tpm := db.tpm[req.cred := Get(db.tpm, req.cred) + req.est],
        active := db.active[req.cred := Get(db.active, req.cred) + 1])
  }

  /** The release script: guarded decrement, then the token count is reconciled and clamped at 0. */
  function Refund(db: Db, c: string, est: int, actual: int): (r: Db)
    ensures r.rpm == db.rpm && r.cooldown == db.cooldown && r.provider == db.provider && r.job == db.job
  {
    var cur := Get(db.active, c);
    var active := if cur > 0 then db.active[c := cur - 1] else db.active;
    var delta := actual - est;
    var tpm := Get(db.tpm, c) + delta;
    db.(active := active,
        tpm := if delta == 0 then db.tpm else db.tpm[c := if tpm < 0 then 0 else tpm])
  }

  // ---------------------------------------------------------------------------
  // Callers and the global state
  // ---------------------------------------------------------------------------

  /** Where a caller stands between two Redis commands. */
  datatype Pc =
    | Idle
    | GotCred(req: Req)                       // next: GET provider
    | SawProvider(req: Req, seen: int)        // next: INCR provider, or roll the credential back
    | GotProvider(req: Req)                   // next: GET job
    | SawJob(req: Req, seen: int)             // next: INCR job, or roll the credential back
    | UndoProvider(req: Req)                  // next: DECR provider
    | Held(req: Req)                          // reserve returned an allowed token
    | GaveCred(req: Req)                      // release ran its script; next: GET provider
    | SawProviderBack(req: Req, seen: int)    // next: DECR provider if seen > 0
    | GaveProvider(req: Req)                  // next: GET job
    | SawJobBack(req: Req, seen: int)         // next: DECR job if seen > 0

  /** `granted` and `returned` count this caller's credential grants and release scripts. */
  datatype Caller = Caller(pc: Pc, granted: nat, returned: nat)

  /** One credential grant: when, and when its rpm window began. */
  datatype Grant = Grant(time: real, start: real)

  /** `spent`, `overrun`, `grants` and the two peaks are history: no step reads them to decide anything. */
  datatype State = State(
    lim: Limits,
    now: real,
    db: Db,
    callers: seq<Caller>,
    spent: map<string, int>,         // tokens released into the current tpm window
    overrun: map<string, int>,       // how far those exceeded their estimates
    grants: map<string, seq<Grant>>,
    providerPeak: map<string, int>,  // most callers ever between GET and INCR
    jobPeak: map<string, int>)

  function GrantsOf(s: State, c: string): seq<Grant> {
    if c in s.grants then s.grants[c] else []
  }

  /** What the counters should add up to: each caller's share of a counter. */
  datatype Meter =
    | CredActive(c: string) | CredTpm(c: string)
    | ProviderActive(p: string) | ProviderGap(p: string)
    | JobActive(j: string) | JobGap(j: string)

  predicate HoldsCred(pc: Pc) {
    pc.GotCred? || pc.SawProvider? || pc.GotProvider? || pc.SawJob? || pc.Held?
  }

  predicate HoldsProvider(pc: Pc) {
    pc.GotProvider? || pc.SawJob? || pc.UndoProvider? || pc.Held? || pc.GaveCred? || pc.SawProviderBack?
  }

  predicate HoldsJob(pc: Pc) {
    !pc.Idle? && pc.req.HasJob() &&
    (pc.Held? || pc.GaveCred? || pc.SawProviderBack? || pc.GaveProvider? || pc.SawJobBack?)
  }

  function Share(m: Meter, lim: Limits, pc: Pc): (w: nat) {
    if pc.Idle? then 0 else
    match m
    case CredActive(c) => if HoldsCred(pc) && pc.req.cred == c then 1 else 0
    case CredTpm(c) => if HoldsCred(pc) && pc.req.cred == c then pc.req.est else 0
    case ProviderActive(p) => if HoldsProvider(pc) && pc.req.provider == p then 1 else 0
    case ProviderGap(p) => if pc.SawProvider? && pc.req.provider == p && !Full(ProviderCap(p), pc.seen) then 1 else 0
    case JobActive(j) => if HoldsJob(pc) && pc.req.job == Some(j) then 1 else 0
    case JobGap(j) => if pc.SawJob? && pc.req.job == Some(j) && !Full(lim.maxJob, pc.seen) then 1 else 0
  }

  function Total(m: Meter, lim: Limits, callers: seq<Caller>): (t: nat) {
    if callers == [] then 0
    else Share(m, lim, callers[0].pc) + Total(m, lim, callers[1..])
  }

  // ---------------------------------------------------------------------------
  // Steps
  // ---------------------------------------------------------------------------

  datatype Event =
    | Reserve(k: nat, req: Req, stamp: int)   // caller k runs the reserve script
    | Proceed(k: nat)                         // caller k issues its next command inside reserve
    | Unwind(k: nat)                          // caller k issues its next command inside release
    | Release(k: nat, actual: nat)            // caller k runs the release script on a held token
    | Tick(dt: real)
    | SetCooldown(c: string, seconds: real)
    | ClearCooldown(c: string)
    | TpmExpires(c: string)                   // the tpm key lapses while nothing is reserved
    | Join                                    // one more caller appears

  /** Only caller k moves; the limits and the clock stay. */
  ghost predicate Local(s: State, k: nat, r: State) {
    r.lim == s.lim && r.now == s.now && |r.callers| == |s.callers|
    && forall i | 0 <= i < |s.callers| && i != k :: r.callers[i] == s.callers[i]
  }

  /** No grant happens, and neither the rpm keys nor the cooldowns change. */
  ghost predicate NoGrant(s: State, r: State) {
    r.grants == s.grants && r.db.rpm == s.db.rpm && r.db.cooldown == s.db.cooldown
  }

  /** The caller whose step an event is, if any. */
  function Actor(e: Event): Option<nat> {
    match e
    case Reserve(k, _, _) => Some(k)
    case Proceed(k) => Some(k)
    case Unwind(k) => Some(k)
    case Release(k, _) => Some(k)
    case _ => None
  }

  function SetPc(s: State, k: nat, pc: Pc): (r: State)
    requires k < |s.callers|
    ensures Local(s, k, r) && NoGrant(s, r) && r.spent == s.spent
  {
    s.(callers := s.callers[k := s.callers[k].(pc := pc)])
  }

  function ReserveStep(s: State, k: nat, req: Req, stamp: int): (r: State)
    requires k < |s.callers|
    ensures Local(s, k, r) && r.db.cooldown == s.db.cooldown && r.spent == s.spent
  {
    if !Check(s.lim, s.db, s.now, req, stamp).Granted? then s else
    var key := BumpRpm(s.lim, s.db, s.now, req.cred);
    s.(db := Charge(s.lim, s.db, s.now, req),
       callers := s.callers[k := Caller(GotCred(req), s.callers[k].granted + 1, s.callers[k].returned)],
       grants := s.grants[req.cred := GrantsOf(s, req.cred) + [Grant(s.now, key.expires - s.lim.window as real)]])
  }

  /** The release script run by caller k, who then continues at `pc`. */
  function RefundStep(s: State, k: nat, actual: nat, pc: Pc): (r: State)
    requires k < |s.callers| && !s.callers[k].pc.Idle?
    ensures Local(s, k, r) && NoGrant(s, r)
  {
    var req := s.callers[k].pc.req;
    s.(db := Refund(s.db, req.cred, req.est, actual),
       callers := s.callers[k := Caller(pc, s.callers[k].granted, s.callers[k].returned + 1)],
       spent := Credit(s.spent, req.cred, actual),
       overrun := s.overrun[req.cred := Get(s.overrun, req.cred) + if actual > req.est then actual - req.est else 0])
  }

  function Raise(m: map<string, int>, k: string, v: int): map<string, int> {
    if v > Get(m, k) then m[k := v] else m
  }

  function SeeProvider(s: State, k: nat, req: Req): (r: State)
    requires k < |s.callers|
    ensures Local(s, k, r) && NoGrant(s, r) && r.spent == s.spent
  {
    var t := SetPc(s, k, SawProvider(req, Get(s.db.provider, req.provider)));
    t.(providerPeak := Raise(t.providerPeak, req.provider, Total(ProviderGap(req.provider), t.lim, t.callers)))
  }

  function SeeJob(s: State, k: nat, req: Req): (r: State)
    requires k < |s.callers| && req.HasJob()
    ensures Local(s, k, r) && NoGrant(s, r) && r.spent == s.spent
  {
    var t := SetPc(s, k, SawJob(req, Get(s.db.job, req.job.value)));
    t.(jobPeak := Raise(t.jobPeak, req.job.value, Total(JobGap(req.job.value), t.lim, t.callers)))
  }

  /** INCR (d = 1) or DECR (d = -1) of a provider counter, after which caller k continues at `pc`. */
  function MoveProvider(s: State, k: nat, p: string, d: int, pc: Pc): (r: State)
    requires k < |s.callers|
    ensures Local(s, k, r) && NoGrant(s, r) && r.spent == s.spent
  {
    SetPc(s, k, pc).(db := s.db.(provider := s.db.provider[p := Get(s.db.provider, p) + d]))
  }

  function MoveJob(s: State, k: nat, j: string, d: int, pc: Pc): (r: State)
    requires k < |s.callers|
    ensures Local(s, k, r) && NoGrant(s, r) && r.spent == s.spent
  {
    SetPc(s, k, pc).(db := s.db.(job := s.db.job[j := Get(s.db.job, j) + d]))
  }

  /** The next single command of a caller inside `reserve`. */
  function ReserveCommand(s: State, k: nat): (r: State)
    requires k < |s.callers|
    ensures Local(s, k, r) && NoGrant(s, r) && r.spent == s.spent
  {
    match s.callers[k].pc
    case GotCred(req) => SeeProvider(s, k, req)
    case SawProvider(req, seen) =>
      if Full(ProviderCap(req.provider), seen) then RefundStep(s, k, 0, Idle)
      else MoveProvider(s, k, req.provider, 1, if req.HasJob() then GotProvider(req) else Held(req))
    case GotProvider(req) => if req.HasJob() then SeeJob(s, k, req) else s
    case SawJob(req, seen) =>
      if !req.HasJob() then s
      else if Full(s.lim.maxJob, seen) then RefundStep(s, k, 0, UndoProvider(req))
      else MoveJob(s, k, req.job.value, 1, Held(req))
    case UndoProvider(req) => MoveProvider(s, k, req.provider, -1, Idle)
    case _ => s
  }

  /** The next single command of a caller inside `release`, after the script. */
  function ReleaseCommand(s: State, k: nat): (r: State)
    requires k < |s.callers|
    ensures Local(s, k, r) && NoGrant(s, r) && r.spent == s.spent
  {
    match s.callers[k].pc
    case GaveCred(req) => SetPc(s, k, SawProviderBack(req, Get(s.db.provider, req.provider)))
    case SawProviderBack(req, seen) =>
      var pc := if req.HasJob() then GaveProvider(req) else Idle;
      if seen > 0 then MoveProvider(s, k, req.provider, -1, pc) else SetPc(s, k, pc)
    case GaveProvider(req) =>
      if req.HasJob() then SetPc(s, k, SawJobBack(req, Get(s.db.job, req.job.value))) else s
    case SawJobBack(req, seen) =>
      if req.HasJob() && seen > 0 then MoveJob(s, k, req.job.value, -1, Idle) else SetPc(s, k, Idle)
    case _ => s
  }

  /** Python's `int` of a float: truncation towards zero. */
  function Trunc(x: real): int {
    if x >= 0.0 then x.Floor else -((-x).Floor)
  }

  /** SET ... EX: Redis refuses a non-positive time to live. */
  predicate CooldownAccepted(seconds: real) {
    Trunc(seconds) + 10 > 0
  }

  function CooldownKey(now: real, seconds: real): Deadline {
    Deadline(now.Floor + Trunc(seconds) + 2, now + (Trunc(seconds) + 10) as real)
  }

  /** One atomic step; an event that does not apply changes nothing. */
  function Next(s: State, e: Event): (r: State)
    ensures r.lim == s.lim && r.now >= s.now && |r.callers| >= |s.callers|
    ensures Actor(e).Some? && Actor(e).value < |s.callers| ==> Local(s, Actor(e).value, r)
    ensures !e.SetCooldown? && !e.ClearCooldown? ==> r.db.cooldown == s.db.cooldown
    ensures !e.Reserve? ==> r.grants == s.grants && r.db.rpm == s.db.rpm
    ensures !e.Release? && !e.TpmExpires? ==> r.spent == s.spent
  {
    match e
    case Reserve(k, req, stamp) =>
      if k < |s.callers| && s.callers[k].pc.Idle? && stamp <= s.now.Floor then ReserveStep(s, k, req, stamp) else s
    case Proceed(k) => if k < |s.callers| then ReserveCommand(s, k) else s
    case Unwind(k) => if k < |s.callers| then ReleaseCommand(s, k) else s
    case Release(k, actual) =>
      if k < |s.callers| && s.callers[k].pc.Held?
      then RefundStep(s, k, actual, GaveCred(s.callers[k].pc.req)) else s
    case Tick(dt) => if dt >= 0.0 then s.(now := s.now + dt) else s
    case SetCooldown(c, seconds) =>
      if CooldownAccepted(seconds)
      then s.(db := s.db.(cooldown := s.db.cooldown[c := CooldownKey(s.now, seconds)])) else s
    case ClearCooldown(c) => s.(db := s.db.(cooldown := s.db.cooldown - {c}))
    case TpmExpires(c) =>
      if Total(CredTpm(c), s.lim, s.callers) == 0
      then s.(db := s.db.(tpm := s.db.tpm - {c}), spent := s.spent - {c}, overrun := s.overrun - {c}) else s
    case Join => s.(callers := s.callers + [Caller(Idle, 0, 0)])
  }

  function Run(s: State, events: seq<Event>): (r: State)
    ensures r.lim == s.lim && r.now >= s.now
    decreases |events|
  {
    if events == [] then s else Next(Run(s, events[..|events| - 1]), events[|events| - 1])
  }

  function Start(lim: Limits, now: real): State {
    State(lim, now, Db(map[], map[], map[], map[], map[], map[]), [], map[], map[], map[], map[], map[])
  }

  /** Some interleaving leads from an empty store to `s`. */
  ghost predicate Reachable(s: State) {
    exists now: real, events: seq<Event> :: s == Run(Start(s.lim, now), events)
  }

  lemma ReachableStep(s: State, e: Event)
    requires Reachable(s)
    ensures Reachable(Next(s, e))
  {
    var now: real, events: seq<Event> :| s == Run(Start(s.lim, now), events);
    assert (events + [e])[..|events|] == events;
    assert Next(s, e) == Run(Start(s.lim, now), events + [e]);
    assert Next(s, e).lim == s.lim;
  }

  /** Nobody else can move a caller, and the clock never goes back. */
  lemma StepFrame(s: State, e: Event, me: nat)
    requires me < |s.callers| && Actor(e) != Some(me)
    ensures me < |Next(s, e).callers| && Next(s, e).callers[me] == s.callers[me]
    ensures Next(s, e).lim == s.lim && Next(s, e).now >= s.now
  {
  }
}

/** What `RateLimiter.reserve` answers, limit by limit. */
module Admission {
  import opened LimiterProtocol
  import opened LimiterLimits
  import opened Options
  import RL = RateLimiter

  /** With nobody interfering `reserve` allows a call exactly if no cooldown of its credential lies ahead, each limit of
      the credential leaves room, its provider has a free slot, and so has its job, if it names one; and what a denial
      names is in the way. */
  lemma AllowsIff(s: State, req: Req)
    ensures var c, p := req.cred, req.provider;
            RL.Verdict(s, req).0 <==>
              && !CoolingDown(s, c, s.now.Floor)
              && (s.lim.maxRpm > 0 ==> Requests(s, c) < s.lim.maxRpm)
              && (s.lim.maxTpm > 0 ==> Tokens(s, c) + req.est <= s.lim.maxTpm)
              && (s.lim.maxActive > 0 ==> Active(s, c) < s.lim.maxActive)
              && (p in s.db.provider ==> s.db.provider[p] < ProviderCap(p))
              && (s.lim.maxJob > 0 && req.job.Some? && req.job.value != "" && req.job.value in s.db.job ==>
                    s.db.job[req.job.value] < s.lim.maxJob)
    ensures RL.Verdict(s, req).1 == "provider_active" ==> Get(s.db.provider, req.provider) >= ProviderCap(req.provider)
    ensures RL.Verdict(s, req).1 == "job_active" ==>
              && req.job.Some? && req.job.value != ""
              && Get(s.db.job, req.job.value) >= s.lim.maxJob > 0
  {
  }
}

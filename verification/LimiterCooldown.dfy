/**
 Cooldowns: after `set_cooldown(s)` at time t no reservation of that credential is
 granted before t + s, although both the clock and the duration are rounded down.
 */
module LimiterCooldown {
  import opened LimiterProtocol
  import opened Options

  lemma FloorBelow(x: real)
    ensures x.Floor as real <= x < x.Floor as real + 1.0
  {
  }

  lemma TruncClose(x: real)
    ensures Trunc(x) as real > x - 1.0
  {
  }

  /** The stored deadline lies after t + s, and the key outlives its deadline. */
  lemma DeadlineCovers(t: real, seconds: real)
    ensures CooldownKey(t, seconds).until as real > t + seconds
    ensures CooldownKey(t, seconds).expires > CooldownKey(t, seconds).until as real
    ensures CooldownKey(t, seconds).until as real <= t + seconds + 3.0
  {
    FloorBelow(t);
    TruncClose(seconds);
  }

  /** Redis takes the cooldown exactly if it does not lie ten seconds or more in the past. */
  lemma AcceptedIff(seconds: real)
    ensures CooldownAccepted(seconds) <==> seconds > -10.0
  {
    FloorBelow(-seconds);
  }

  /** The key of a cooldown that lies ahead lives nine to ten seconds longer than was asked for. */
  lemma KeyLives(t: real, seconds: real)
    requires seconds >= 0.0
    ensures t + seconds + 9.0 < CooldownKey(t, seconds).expires <= t + seconds + 10.0
  {
    FloorBelow(seconds);
  }

  predicate Touches(e: Event, c: string) {
    (e.SetCooldown? && e.c == c) || (e.ClearCooldown? && e.c == c)
  }

  /** The deadline stays where it is until somebody sets or clears it. */
  lemma DeadlineStays(s: State, e: Event, c: string)
    requires c in s.db.cooldown && !Touches(e, c)
    ensures c in Next(s, e).db.cooldown && Next(s, e).db.cooldown[c] == s.db.cooldown[c]
  {
  }

  /** While it lies ahead nothing is granted. */
  lemma NoGrantBefore(s: State, e: Event, c: string)
    requires c in s.db.cooldown && s.now < s.db.cooldown[c].until as real < s.db.cooldown[c].expires
    ensures GrantsOf(Next(s, e), c) == GrantsOf(s, c)
  {
    if e.Reserve? && e.req.cred == c && e.stamp <= s.now.Floor {
      FloorBelow(s.now);
      assert ByCooldown(Check(s.lim, s.db, s.now, e.req, e.stamp));
    }
  }

  lemma {:induction false} RunUnderCooldown(s: State, events: seq<Event>, c: string)
    requires c in s.db.cooldown && s.db.cooldown[c].until as real < s.db.cooldown[c].expires
    requires forall i | 0 <= i < |events| :: !Touches(events[i], c)
    ensures Run(s, events).now >= s.now
    ensures c in Run(s, events).db.cooldown && Run(s, events).db.cooldown[c] == s.db.cooldown[c]
    ensures Run(s, events).now < s.db.cooldown[c].until as real ==> GrantsOf(Run(s, events), c) == GrantsOf(s, c)
    decreases |events|
  {
    if events != [] {
      var init := events[..|events| - 1];
      RunUnderCooldown(s, init, c);
      DeadlineStays(Run(s, init), events[|events| - 1], c);
      if Run(s, init).now < s.db.cooldown[c].until as real {
        NoGrantBefore(Run(s, init), events[|events| - 1], c);
      }
    }
  }

  /** After `set_cooldown` at time t, whatever anybody does short of setting or clearing that cooldown,
      no reservation is granted before t + seconds. */
  lemma {:induction false} CooldownHolds(s: State, c: string, seconds: real, events: seq<Event>)
    requires CooldownAccepted(seconds)
    requires forall i | 0 <= i < |events| :: !Touches(events[i], c)
    ensures var t := Next(s, SetCooldown(c, seconds));
            Run(t, events).now <= s.now + seconds ==> GrantsOf(Run(t, events), c) == GrantsOf(s, c)
  {
    DeadlineCovers(s.now, seconds);
    RunUnderCooldown(Next(s, SetCooldown(c, seconds)), events, c);
  }

  /** `cooldown_remaining`: positive exactly while a deadline lies ahead, and then it ends there. */
  function Remaining(db: Db, c: string, now: real): (r: real)
    ensures r >= 0.0
    ensures r > 0.0 <==> GetCooldown(db, c, now).Some? && GetCooldown(db, c, now).value as real > now
    ensures r > 0.0 ==> now + r == GetCooldown(db, c, now).value as real
  {
    match GetCooldown(db, c, now)
    case None => 0.0
    case Some(until) => if until as real - now > 0.0 then until as real - now else 0.0
  }

  /** Whoever sleeps at least the remaining time is not denied again by the same deadline, even if the stamp it
      brings to the script was taken as soon as it woke up. */
  lemma SleptEnough(s: State, c: string, wait: real, t: State, req: Req, stamp: int)
    requires req.cred == c && c in s.db.cooldown && s.db.cooldown[c].until as real < s.db.cooldown[c].expires
    requires wait >= Remaining(s.db, c, s.now)
    requires t.now >= s.now + wait && stamp >= (s.now + wait).Floor
    requires c in t.db.cooldown ==> t.db.cooldown[c] == s.db.cooldown[c]
    ensures !ByCooldown(Check(t.lim, t.db, t.now, req, stamp))
  {
    FloorBelow(s.now + wait);
    assert s.now + wait >= s.db.cooldown[c].until as real;
  }
}

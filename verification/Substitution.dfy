/**
 `re.sub` for a pattern that is a choice of fixed strings: leftmost matches,
 without overlap, each replaced by its own text.
 */
module Substitution {
  import opened Text

  datatype Rule = Rule(token: string, replacement: string)

  predicate AnyToken(rules: seq<Rule>, s: string) {
    exists k | 0 <= k < |rules| :: rules[k].token <= s
  }

  /** The first alternative that matches here. */
  function Match(rules: seq<Rule>, s: string): (k: nat)
    requires AnyToken(rules, s)
    ensures k < |rules| && rules[k].token <= s
  {
    if rules[0].token <= s then 0 else 1 + Match(rules[1..], s)
  }

  predicate Proper(rules: seq<Rule>) {
    forall k | 0 <= k < |rules| :: rules[k].token != "" && rules[k].replacement != ""
  }

  function Sub(rules: seq<Rule>, s: string): string
    requires Proper(rules)
  {
    if s == "" then ""
    else if AnyToken(rules, s) then
      var rule := rules[Match(rules, s)];
      rule.replacement + Sub(rules, s[|rule.token|..])
    else [s[0]] + Sub(rules, s[1..])
  }

  lemma SubStep(rules: seq<Rule>, s: string)
    requires Proper(rules) && s != ""
    ensures Sub(rules, s) ==
              if AnyToken(rules, s) then
                var rule := rules[Match(rules, s)];
                rule.replacement + Sub(rules, s[|rule.token|..])
              else [s[0]] + Sub(rules, s[1..])
  {
  }

  /** The text before the first match stays, the match is replaced, and the rest is treated the same way. */
  lemma {:induction false} FirstMatchReplaced(rules: seq<Rule>, u: string, k: nat, v: string)
    requires Proper(rules) && k < |rules|
    requires forall i | 0 <= i < |u| :: !AnyToken(rules, (u + rules[k].token + v)[i..])
    requires Match(rules, rules[k].token + v) == k
    ensures Sub(rules, u + rules[k].token + v) == u + rules[k].replacement + Sub(rules, v)
  {
    hide Sub, Match;
    var s := u + rules[k].token + v;
    SubStep(rules, s);
    if u == "" {
      assert s == rules[k].token + v && s[|rules[k].token|..] == v;
      assert "" + rules[k].replacement == rules[k].replacement;
    } else {
      hide AnyToken, Proper;
      var rest := u[1..] + rules[k].token + v;
      assert s[1..] == rest && s[0..] == s;
      forall i | 0 <= i < |u| - 1 ensures !AnyToken(rules, rest[i..]) {
        assert rest[i..] == s[i + 1..];
      }
      FirstMatchReplaced(rules, u[1..], k, v);
      assert [u[0]] + u[1..] == u;
    }
  }

  /** No token, no change. */
  lemma {:induction false} NoTokenNoChange(rules: seq<Rule>, s: string)
    requires Proper(rules)
    requires forall k | 0 <= k < |rules| :: !Occurs(rules[k].token, s)
    ensures Sub(rules, s) == s
  {
    if s != "" {
      NoTokenNoChange(rules, s[1..]);
    }
  }

  /** `t` can begin nowhere in `r`, not even to be completed by what follows. */
  predicate Harmless(r: string, t: string) {
    |t| >= 2 && forall p | 0 <= p < |r| :: r[p] == t[0] ==> p + 1 < |r| && r[p + 1] != t[1]
  }

  /** No replacement can begin `t`, nor continue one that has begun. */
  predicate Safe(rules: seq<Rule>, t: string) {
    && Proper(rules) && |t| >= 2
    && forall k | 0 <= k < |rules| :: Harmless(rules[k].replacement, t) && rules[k].replacement[0] !in t[1..]
  }

  /** A prefix of the result that no replacement can begin is a prefix of the input. */
  lemma {:induction false} PrefixReflects(rules: seq<Rule>, x: string, s: string)
    requires Proper(rules) && forall k | 0 <= k < |rules| :: rules[k].replacement[0] !in x
    requires x <= Sub(rules, s)
    ensures x <= s
  {
    if x != "" {
      assert x[0] == Sub(rules, s)[0];
      if !AnyToken(rules, s) {
        assert Sub(rules, s)[1..] == Sub(rules, s[1..]);
        PrefixReflects(rules, x[1..], s[1..]);
      }
    }
  }

  /** A harmless text in front hides no occurrence. */
  lemma {:induction false} SkipHarmless(r: string, t: string, rest: string)
    requires Harmless(r, t) && Occurs(t, r + rest)
    ensures Occurs(t, rest)
  {
    if r == "" {
      assert r + rest == rest;
    } else {
      assert (r + rest)[0] == r[0] && (|r| > 1 ==> (r + rest)[1] == r[1]);
      assert (r + rest)[1..] == r[1..] + rest;
      forall p | 0 <= p < |r| - 1 && r[1..][p] == t[0] ensures p + 1 < |r| - 1 && r[1..][p + 1] != t[1] {
        assert r[p + 1] == t[0];
      }
      SkipHarmless(r[1..], t, rest);
    }
  }

  /** A substitution makes no marker: one in the result was in the input, and was none of the tokens. */
  lemma {:induction false} NothingNew(rules: seq<Rule>, t: string, s: string)
    requires Safe(rules, t) && Occurs(t, Sub(rules, s))
    ensures Occurs(t, s)
    ensures forall k | 0 <= k < |rules| :: rules[k].token != t
  {
    if s != "" {
      if AnyToken(rules, s) {
        var rule := rules[Match(rules, s)];
        var rest := s[|rule.token|..];
        SkipHarmless(rule.replacement, t, Sub(rules, rest));
        NothingNew(rules, t, rest);
        OccursLater(t, s, |rule.token|);
      } else if t <= Sub(rules, s) {
        assert Sub(rules, s)[1..] == Sub(rules, s[1..]);
        PrefixReflects(rules, t[1..], s[1..]);
      } else {
        assert Sub(rules, s)[1..] == Sub(rules, s[1..]);
        NothingNew(rules, t, s[1..]);
      }
    }
  }
}

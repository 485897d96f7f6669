/** Strings as the regular expressions of the repository see them, on ASCII. */
module Text {

  lemma Halves<T>(s: seq<T>, n: nat)
    requires n <= |s|
    ensures s == s[..n] + s[n..]
  {
  }

  lemma Associates<T>(a: seq<T>, b: seq<T>, c: seq<T>)
    ensures a + b + c == a + (b + c)
  {
  }

  function LowerChar(c: char): char {
    if 'A' <= c <= 'Z' then (c as int + 32) as char else c
  }

  function Lower(s: string): (r: string)
    ensures |r| == |s| && forall i | 0 <= i < |s| :: r[i] == LowerChar(s[i])
  {
    if s == [] then [] else [LowerChar(s[0])] + Lower(s[1..])
  }

  /** `part in s`. */
  predicate Occurs(part: string, s: string) {
    part <= s || (s != [] && Occurs(part, s[1..]))
  }

  lemma {:induction false} OccursAt(part: string, s: string, i: nat)
    requires i + |part| <= |s| && s[i..i + |part|] == part
    ensures Occurs(part, s)
  {
    if i > 0 {
      assert s[1..][i - 1..i - 1 + |part|] == part;
      OccursAt(part, s[1..], i - 1);
    }
  }

  lemma {:induction false} OccursWhere(part: string, s: string) returns (i: nat)
    requires Occurs(part, s)
    ensures i + |part| <= |s| && s[i..i + |part|] == part
  {
    if part <= s {
      i := 0;
    } else {
      i := OccursWhere(part, s[1..]);
      assert s[1..][i..i + |part|] == s[i + 1..i + 1 + |part|];
      i := i + 1;
    }
  }

  lemma OccursAfter(part: string, s: string, i: nat, n: nat)
    requires n <= i && i + |part| <= |s| && s[i..i + |part|] == part
    ensures Occurs(part, s[n..])
  {
    assert s[n..][i - n..i - n + |part|] == s[i..i + |part|];
    OccursAt(part, s[n..], i - n);
  }

  lemma {:induction false} OccursLater(part: string, s: string, n: nat)
    requires n <= |s| && Occurs(part, s[n..])
    ensures Occurs(part, s)
  {
    var i := OccursWhere(part, s[n..]);
    assert s[n..][i..i + |part|] == s[n + i..n + i + |part|];
    OccursAt(part, s, n + i);
  }

  predicate IsDigit(c: char) {
    '0' <= c <= '9'
  }

  predicate IsSpace(c: char) {
    c == ' ' || '\t' <= c <= '\r' || '\U{1c}' <= c <= '\U{1f}'
  }

  /** How much whitespace comes first. */
  function SpaceRun(s: string): (n: nat)
    ensures n <= |s| && (n < |s| ==> !IsSpace(s[n]))
    ensures forall i | 0 <= i < n :: IsSpace(s[i])
  {
    if s != "" && IsSpace(s[0]) then 1 + SpaceRun(s[1..]) else 0
  }

  /** `\w` */
  predicate IsWord(c: char) {
    IsDigit(c) || 'a' <= c <= 'z' || 'A' <= c <= 'Z' || c == '_'
  }

  /** `str(n)` */
  function Decimal(n: nat): (r: string)
    ensures r != "" && forall i | 0 <= i < |r| :: IsDigit(r[i])
  {
    if n < 10 then [(n + '0' as int) as char] else Decimal(n / 10) + [(n % 10 + '0' as int) as char]
  }

  lemma {:induction false} DecimalInjective(m: nat, n: nat)
    requires Decimal(m) == Decimal(n)
    ensures m == n
  {
    var a, b := Decimal(m), Decimal(n);
    assert a[|a| - 1] == b[|b| - 1];
    if m >= 10 && n >= 10 {
      assert Decimal(m / 10) == a[..|a| - 1] && Decimal(n / 10) == b[..|b| - 1];
      DecimalInjective(m / 10, n / 10);
    }
  }

  /** The words of `\w{3,}`: maximal runs of three characters or more; `run` is the run so far. */
  function WordsAfter(run: string, s: string): set<string>
    decreases |s|
  {
    if s != "" && IsWord(s[0]) then WordsAfter(run + [s[0]], s[1..])
    else (if |run| >= 3 then {run} else {}) + (if s == "" then {} else WordsAfter("", s[1..]))
  }

  function Words(s: string): set<string> {
    WordsAfter("", s)
  }

  function StripLeft(s: string): (r: string)
    ensures |r| <= |s|
  {
    if s != "" && IsSpace(s[0]) then StripLeft(s[1..]) else s
  }

  function StripRight(s: string): (r: string)
    ensures |r| <= |s|
  {
    if s != "" && IsSpace(s[|s| - 1]) then StripRight(s[..|s| - 1]) else s
  }

  function Strip(s: string): (r: string)
    ensures |r| <= |s|
  {
    StripRight(StripLeft(s))
  }

  const BREAK := "\n\n"

  lemma BreakLater(s: string, i: nat)
    requires s != "" && i <= |s| - 1
    ensures i + 2 <= |s| - 1 ==> s[1..][i..i + 2] == s[i + 1..i + 3]
  {
  }

  /** Where the first blank line begins, or the end. */
  function FirstBreak(s: string): (i: nat)
    ensures i <= |s| && (i < |s| ==> i + 2 <= |s| && s[i..i + 2] == BREAK)
  {
    if s == "" || BREAK <= s then 0
    else
      var i := FirstBreak(s[1..]);
      BreakLater(s, i);
      i + 1
  }

  /** `s.split("\n\n")` */
  function Split(s: string): seq<string>
    decreases |s|
  {
    var i := FirstBreak(s);
    if i == |s| then [s] else [s[..i]] + Split(s[i + 2..])
  }

  /** `"\n\n".join(parts)` */
  function Join(parts: seq<string>): string {
    if parts == [] then "" else if |parts| == 1 then parts[0] else parts[0] + BREAK + Join(parts[1..])
  }

  /** `s[:n]` */
  function Upto(s: string, n: int): (r: string)
    ensures r <= s && |r| <= |s|
    ensures n >= 0 ==> |r| <= n
  {
    if n >= |s| then s else if n >= 0 then s[..n] else if |s| + n >= 0 then s[..|s| + n] else ""
  }

  /** `s.rfind("\n\n")` */
  function LastBreak(s: string): (i: int)
    ensures -1 <= i < |s| + 1
  {
    if |s| < 2 then -1 else if s[|s| - 2..] == BREAK then |s| - 2 else LastBreak(s[..|s| - 1])
  }

  /** `"\n\n".join(s.split("\n\n")) == s` */
  lemma {:induction false} SplitThenJoin(s: string)
    ensures Split(s) != [] && Join(Split(s)) == s
    decreases |s|
  {
    hide Join, Split, FirstBreak;
    SplitStep(s);
    if FirstBreak(s) == |s| {
      JoinOne(s);
    } else {
      var i := FirstBreak(s);
      SplitThenJoin(s[i + 2..]);
      JoinStep(s[..i], Split(s[i + 2..]));
      AroundBreak(s, i);
    }
  }

  lemma SplitStep(s: string)
    ensures Split(s) == if FirstBreak(s) == |s| then [s] else [s[..FirstBreak(s)]] + Split(s[FirstBreak(s) + 2..])
  {
    hide FirstBreak;
  }

  lemma AroundBreak(s: string, i: nat)
    requires i + 2 <= |s| && s[i..i + 2] == BREAK
    ensures s == s[..i] + BREAK + s[i + 2..]
  {
    ThreeParts(s, i, i + 2);
  }

  lemma ThreeParts(s: string, i: nat, j: nat)
    requires i <= j <= |s|
    ensures s == s[..i] + s[i..j] + s[j..]
  {
  }

  lemma JoinOne(s: string)
    ensures Join([s]) == s
  {
  }

  lemma JoinStep(part: string, parts: seq<string>)
    requires parts != []
    ensures Join([part] + parts) == part + BREAK + Join(parts)
  {
    assert ([part] + parts)[1..] == parts;
  }

  lemma {:induction false} NoBreakBefore(s: string)
    ensures !Occurs(BREAK, s[..FirstBreak(s)])
  {
    var i := FirstBreak(s);
    if i > 0 {
      NoBreakBefore(s[1..]);
      assert s[..i][1..] == s[1..][..i - 1];
    }
  }

  lemma {:induction false} PartsHaveNoBreak(s: string)
    ensures forall k | 0 <= k < |Split(s)| :: !Occurs(BREAK, Split(s)[k])
    decreases |s|
  {
    var i := FirstBreak(s);
    NoBreakBefore(s);
    assert s[..|s|] == s;
    if i < |s| {
      PartsHaveNoBreak(s[i + 2..]);
    }
  }
}

/**
 Citation cleaning on any text, nested brackets included: which groups it can
 newly form, and what exactly they decide.
 */
module CitationsExact {
  import opened Text
  import opened CitationText
  import opened Citations

  // ---------------------------------------------------------------------------
  // Reading a text of segments again
  // ---------------------------------------------------------------------------

  ghost predicate AllInGroup(g: string) {
    forall i | 0 <= i < |g| :: InGroup(g[i])
  }

  ghost predicate GroupsOk(segs: seq<Seg>) {
    forall i | 0 <= i < |segs| && segs[i].Group? :: AllInGroup(segs[i].content)
  }

  /** How many single group characters come first. */
  function CharRun(segs: seq<Seg>): (n: nat)
    ensures n <= |segs|
  {
    if segs != [] && segs[0].Char? && InGroup(segs[0].c) then 1 + CharRun(segs[1..]) else 0
  }

  function Chars(segs: seq<Seg>): string {
    if segs == [] then "" else (if segs[0].Char? then [segs[0].c] else "") + Chars(segs[1..])
  }

  /** An opening bracket before these would make a group. */
  predicate ClosesHere(segs: seq<Seg>) {
    CharRun(segs) < |segs| && segs[CharRun(segs)] == Char(']')
  }

  predicate FormsHere(segs: seq<Seg>) {
    segs != [] && segs[0] == Char('[') && ClosesHere(segs[1..])
  }

  /** The group formed here. */
  function FormedFirst(segs: seq<Seg>): string
    requires FormsHere(segs)
  {
    Chars(segs[1..][..CharRun(segs[1..])])
  }

  /** What follows it. */
  function Behind(segs: seq<Seg>): (r: seq<Seg>)
    requires FormsHere(segs)
    ensures |r| < |segs|
  {
    segs[CharRun(segs[1..]) + 2..]
  }

  /** The groups that single characters form. */
  function Formed(segs: seq<Seg>): seq<string>
    decreases |segs|
  {
    if segs == [] then []
    else if FormsHere(segs) then [FormedFirst(segs)] + Formed(Behind(segs))
    else Formed(segs[1..])
  }

  /** The segments with those groups put together. */
  function Regrouped(segs: seq<Seg>): seq<Seg>
    decreases |segs|
  {
    if segs == [] then []
    else if FormsHere(segs) then [Group(FormedFirst(segs))] + Regrouped(Behind(segs))
    else [segs[0]] + Regrouped(segs[1..])
  }

  lemma CharRunStep(segs: seq<Seg>)
    requires CharRun(segs) > 0
    ensures var n, c, rest := CharRun(segs), segs[0].c, segs[1..];
            && segs[0].Char? && InGroup(c) && CharRun(rest) == n - 1
            && Unparse(segs) == [c] + Unparse(rest) && Chars(segs[..n]) == [c] + Chars(rest[..n - 1])
            && segs[n..] == rest[n - 1..] && (ClosesHere(segs) <==> ClosesHere(rest))
  {
    var n, rest := CharRun(segs), segs[1..];
    assert segs[..n][1..] == rest[..n - 1];
  }

  lemma RunStep(c: char, t: string)
    requires InGroup(c)
    ensures var s := [c] + t; Run(s) == 1 + Run(t) && (Closes(s) <==> Closes(t))
  {
    var s := [c] + t;
    assert s[0] == c && s[1..] == t;
    assert Run(s) < |s| ==> s[Run(s)] == t[Run(t)];
  }

  lemma NoCharRun(segs: seq<Seg>)
    requires CharRun(segs) == 0
    ensures Run(Unparse(segs)) == 0 && (ClosesHere(segs) <==> Closes(Unparse(segs)))
  {
    var s := Unparse(segs);
    if segs != [] {
      assert s[0] == if segs[0].Char? then segs[0].c else '[';
    }
  }

  lemma {:induction false} CharRunReads(segs: seq<Seg>)
    ensures var n, s := CharRun(segs), Unparse(segs);
            && Run(s) == n && n <= |s|
            && s[..n] == Chars(segs[..n]) && s[n..] == Unparse(segs[n..])
            && (ClosesHere(segs) <==> Closes(s))
  {
    hide CharRun, Run, Unparse, Chars, ClosesHere, Closes;
    var s, n := Unparse(segs), CharRun(segs);
    if n > 0 {
      var rest := segs[1..];
      var t := Unparse(rest);
      CharRunReads(rest);
      CharRunStep(segs);
      RunStep(segs[0].c, t);
      assert s[..n] == [segs[0].c] + t[..n - 1] && s[n..] == t[n - 1..];
    } else {
      NoCharRun(segs);
      NoChars();
      assert segs[..0] == [] && segs[0..] == segs && s[..0] == "" && s[0..] == s;
    }
  }

  lemma NoChars()
    ensures Chars([]) == ""
  {
  }

  lemma {:induction false} CharsInGroup(segs: seq<Seg>)
    ensures AllInGroup(Chars(segs[..CharRun(segs)]))
  {
    if CharRun(segs) > 0 {
      var n := CharRun(segs);
      CharsInGroup(segs[1..]);
      assert segs[..n][1..] == segs[1..][..n - 1];
    } else {
      assert segs[..0] == [];
    }
  }

  /** Where the characters of the group end. */
  lemma BehindIs(segs: seq<Seg>)
    requires FormsHere(segs)
    ensures segs[1..][CharRun(segs[1..])..] == [Char(']')] + Behind(segs)
  {
  }

  lemma FormedText(segs: seq<Seg>)
    requires FormsHere(segs)
    ensures Unparse(segs[1..]) == FormedFirst(segs) + ("]" + Unparse(Behind(segs)))
  {
    var rest, n := segs[1..], CharRun(segs[1..]);
    hide FormsHere, Chars, CharRun, Unparse, Behind;
    var s := Unparse(rest);
    CharRunReads(rest);
    assert s[n..] == "]" + Unparse(Behind(segs)) by {
      BehindIs(segs);
      UnparseFirst(Char(']'), Behind(segs));
    }
    Halves(s, n);
  }

  lemma Bracketed(segs: seq<Seg>)
    requires FormsHere(segs)
    ensures AllInGroup(FormedFirst(segs))
    ensures Unparse(segs) == "[" + FormedFirst(segs) + "]" + Unparse(Behind(segs))
  {
    hide Chars, CharRun, Unparse, Behind, ClosesHere, AllInGroup;
    var rest := segs[1..];
    CharsInGroup(rest);
    FormedText(segs);
    UnparseFirst(Char('['), rest);
    assert segs == [Char('[')] + rest;
    var g, u := FormedFirst(segs), Unparse(Behind(segs));
    assert "[" + (g + ("]" + u)) == "[" + g + "]" + u;
  }

  lemma CharRead(segs: seq<Seg>)
    requires segs != [] && segs[0].Char? && !FormsHere(segs)
    ensures Parse(Unparse(segs)) == [segs[0]] + Parse(Unparse(segs[1..]))
  {
    hide CharRun, Chars, Run, Parse, Closes;
    var rest := segs[1..];
    CharRunReads(rest);
    NothingOpens(segs[0].c, rest);
    assert segs == [segs[0]] + rest;
  }

  lemma {:induction false} RegroupedOk(segs: seq<Seg>)
    requires GroupsOk(segs)
    ensures GroupsOk(Regrouped(segs))
    decreases |segs|
  {
    if segs != [] {
      if FormsHere(segs) {
        Bracketed(segs);
        hide FormedFirst, Unparse, AllInGroup;
        RegroupedOk(Behind(segs));
      } else {
        hide AllInGroup;
        RegroupedOk(segs[1..]);
      }
    }
  }

  /** The text of any segments reads back with the groups that its single characters form. */
  lemma {:induction false} ParseRegroups(segs: seq<Seg>)
    requires GroupsOk(segs)
    ensures Parse(Unparse(segs)) == Regrouped(segs)
    decreases |segs|
  {
    hide FormsHere, FormedFirst, Parse, Unparse, Opens, Inside;
    if segs == [] {
      NothingParsed();
    } else if FormsHere(segs) {
      Bracketed(segs);
      GroupAtHead(FormedFirst(segs), Unparse(Behind(segs)));
      ParseOpen(Unparse(segs));
      BehindOk(segs);
      ParseRegroups(Behind(segs));
    } else {
      var rest := segs[1..];
      ParseRegroups(rest);
      match segs[0]
      case Group(g) =>
        assert segs == [segs[0]] + rest;
        GroupRead(g, rest);
      case Char(_) =>
        CharRead(segs);
    }
  }

  lemma BehindOk(segs: seq<Seg>)
    requires GroupsOk(segs) && FormsHere(segs)
    ensures GroupsOk(Behind(segs))
  {
  }

  // ---------------------------------------------------------------------------
  // The groups of segments
  // ---------------------------------------------------------------------------

  function Contents(segs: seq<Seg>): seq<string> {
    if segs == [] then [] else (if segs[0].Group? then [segs[0].content] else []) + Contents(segs[1..])
  }

  lemma {:induction false} ContentsOfChars(segs: seq<Seg>, n: nat)
    requires n <= CharRun(segs)
    ensures Contents(segs) == Contents(segs[n..])
  {
    if n > 0 {
      ContentsOfChars(segs[1..], n - 1);
      assert segs[1..][n - 1..] == segs[n..];
    } else {
      assert segs[0..] == segs;
    }
  }

  lemma ContentsFirst(seg: Seg, rest: seq<Seg>)
    ensures Contents([seg] + rest) == (if seg.Group? then [seg.content] else []) + Contents(rest)
  {
    assert ([seg] + rest)[1..] == rest;
  }

  lemma ContentsBehind(segs: seq<Seg>)
    requires FormsHere(segs)
    ensures Contents(segs) == Contents(Behind(segs))
  {
    var rest := segs[1..];
    BehindIs(segs);
    ContentsOfChars(rest, CharRun(rest));
    ContentsFirst(Char(']'), Behind(segs));
    hide *;
    ContentsFirst(segs[0], rest);
    assert segs == [segs[0]] + rest;
    assert [] + Contents(rest) == Contents(rest);
    assert [] + Contents(Behind(segs)) == Contents(Behind(segs));
  }

  /** Reading again adds exactly the formed groups. */
  lemma {:induction false} ContentsRegrouped(segs: seq<Seg>)
    ensures |Contents(Regrouped(segs))| == |Contents(segs)| + |Formed(segs)|
    ensures forall g :: g in Contents(Regrouped(segs)) <==> g in Contents(segs) || g in Formed(segs)
    decreases |segs|
  {
    hide FormsHere, FormedFirst, Behind, Contents;
    if segs == [] {
      NoContents();
    } else if FormsHere(segs) {
      ContentsRegrouped(Behind(segs));
      ContentsBehind(segs);
      ContentsFirst(Group(FormedFirst(segs)), Regrouped(Behind(segs)));
    } else {
      var rest := segs[1..];
      ContentsRegrouped(rest);
      ContentsFirst(segs[0], Regrouped(rest));
      ContentsFirst(segs[0], rest);
      assert segs == [segs[0]] + rest;
    }
  }

  lemma NoContents()
    ensures Contents([]) == []
  {
  }

  lemma {:induction false} NothingFormedNothingRegrouped(segs: seq<Seg>)
    requires Formed(segs) == []
    ensures Regrouped(segs) == segs
  {
    if segs != [] {
      NothingFormedNothingRegrouped(segs[1..]);
    }
  }

  function NonBlank(groups: seq<string>): seq<string> {
    if groups == [] then [] else (if IsBlank(groups[0]) then [] else [groups[0]]) + NonBlank(groups[1..])
  }

  lemma NonBlankFirst(g: string, groups: seq<string>)
    ensures NonBlank([g] + groups) == (if IsBlank(g) then [] else [g]) + NonBlank(groups)
  {
    assert ([g] + groups)[1..] == groups;
  }

  lemma {:induction false} NonBlankMembers(groups: seq<string>)
    ensures forall g :: g in NonBlank(groups) <==> g in groups && !IsBlank(g)
  {
    if groups != [] {
      NonBlankMembers(groups[1..]);
      assert groups == [groups[0]] + groups[1..];
    }
  }

  lemma {:induction false} ContentsWithoutBlank(segs: seq<Seg>)
    ensures Contents(WithoutBlank(segs)) == NonBlank(Contents(segs))
  {
    if segs != [] {
      hide IsBlank, Contents, NonBlank;
      var rest, after := segs[1..], WithoutBlank(segs[1..]);
      ContentsWithoutBlank(rest);
      assert segs == [segs[0]] + rest && [] + after == after && [] + Contents(rest) == Contents(rest);
      ContentsFirst(segs[0], rest);
      ContentsFirst(segs[0], after);
      if segs[0].Group? {
        NonBlankFirst(segs[0].content, Contents(rest));
        assert [] + NonBlank(Contents(rest)) == NonBlank(Contents(rest));
      } else {
        assert [] + Contents(after) == Contents(after);
      }
    } else {
      NoContents();
    }
  }

  // ---------------------------------------------------------------------------
  // The third substitution on any groups
  // ---------------------------------------------------------------------------

  /** Each group with no space before its commas. */
  function Tidied(segs: seq<Seg>): seq<Seg> {
    if segs == [] then []
    else [if segs[0].Group? then Group(FixSpacing(segs[0].content)) else segs[0]] + Tidied(segs[1..])
  }

  /** The first character kept, and what is still to be read; the same with `t` behind. */
  lemma ApartStep(g: string, t: string) returns (c: char, rest: string)
    requires g != "" && t != "" && !IsSpace(t[0]) && !IsPunctuation(t[0])
    ensures |rest| < |g| && FixSpacing(g) == [c] + FixSpacing(rest)
    ensures FixSpacing(g + t) == [c] + FixSpacing(rest + t)
  {
    hide FixSpacing, SpaceRun;
    var n := SpaceRun(g);
    SpaceRunBefore(g, t);
    FixSpacingStep(g);
    FixSpacingStep(g + t);
    assert (g + t)[|g|] == t[0] && (g + t)[1..] == g[1..] + t;
    c, rest := g[0], g[1..];
    if n < |g| {
      assert (g + t)[n] == g[n] && (g + t)[n + 1..] == g[n + 1..] + t;
      if 0 < n && IsPunctuation(g[n]) {
        c, rest := g[n], g[n + 1..];
      }
    }
  }

  /** A character that is neither space nor punctuation keeps what is before it apart from what follows. */
  lemma {:induction false} FixSpacingApart(g: string, t: string)
    requires t != "" && !IsSpace(t[0]) && !IsPunctuation(t[0])
    ensures FixSpacing(g + t) == FixSpacing(g) + FixSpacing(t)
    decreases |g|
  {
    hide FixSpacing, SpaceRun;
    if g == "" {
      assert g + t == t;
      NothingToFix();
    } else {
      var c, rest := ApartStep(g, t);
      FixSpacingApart(rest, t);
      Associates([c], FixSpacing(rest), FixSpacing(t));
    }
  }

  lemma {:induction false} SpaceRunBefore(g: string, t: string)
    requires t != "" && !IsSpace(t[0])
    ensures SpaceRun(g + t) == SpaceRun(g)
  {
    if g == "" {
      assert g + t == t;
    } else {
      assert (g + t)[1..] == g[1..] + t;
      SpaceRunBefore(g[1..], t);
    }
  }

  lemma FixSpacingStep(s: string)
    requires s != ""
    ensures var n := SpaceRun(s);
            FixSpacing(s) == if 0 < n < |s| && IsPunctuation(s[n]) then [s[n]] + FixSpacing(s[n + 1..])
                             else [s[0]] + FixSpacing(s[1..])
  {
  }

  lemma {:induction false} FixSpacingInGroup(g: string)
    requires AllInGroup(g)
    ensures AllInGroup(FixSpacing(g))
    decreases |g|
  {
    if g != "" {
      var n := SpaceRun(g);
      if 0 < n < |g| && IsPunctuation(g[n]) {
        FixSpacingInGroup(g[n + 1..]);
      } else {
        FixSpacingInGroup(g[1..]);
      }
    }
  }

  lemma {:induction false} NoNumberInSpaces(s: string, n: nat)
    requires n <= |s| && forall i | 0 <= i < n :: !IsDigit(s[i])
    ensures NumbersAfter("", s) == NumbersAfter("", s[n..])
  {
    if n == 0 {
      assert s[0..] == s;
    } else {
      NoNumberInSpaces(s[1..], n - 1);
      assert s[1..][n - 1..] == s[n..];
      assert [] + NumbersAfter("", s[1..]) == NumbersAfter("", s[1..]);
    }
  }

  /** Dropping spaces before a comma changes no number. */
  lemma {:induction false} FixSpacingKeepsNumbers(run: string, g: string)
    ensures NumbersAfter(run, FixSpacing(g)) == NumbersAfter(run, g)
    decreases |g|
  {
    hide FixSpacing, SpaceRun, NumbersAfter;
    if g == "" {
      NothingToFix();
    } else {
      var n := SpaceRun(g);
      FixSpacingStep(g);
      NumbersStep(run, g[0], g[1..]);
      assert g == [g[0]] + g[1..];
      if 0 < n < |g| && IsPunctuation(g[n]) {
        var rest := g[n + 1..];
        FixSpacingKeepsNumbers("", rest);
        NumbersStep(run, g[n], FixSpacing(rest));
        NoNumberInSpaces(g[1..], n);
        assert g[1..][n..] == rest;
      } else {
        FixSpacingKeepsNumbers(if IsDigit(g[0]) then run + [g[0]] else "", g[1..]);
        NumbersStep(run, g[0], FixSpacing(g[1..]));
      }
    }
  }

  lemma GroupTidied(g: string, rest: string)
    ensures FixSpacing("[" + g + "]" + rest) == "[" + FixSpacing(g) + "]" + FixSpacing(rest)
  {
    hide FixSpacing, Spaced;
    var u := "]" + rest;
    BracketsAreSpaced();
    assert "[" + g + "]" + rest == "[" + (g + u);
    FixSpacingCopies("[", g + u);
    FixSpacingApart(g, u);
    FixSpacingCopies("]", rest);
    Associates("[" + FixSpacing(g), "]", FixSpacing(rest));
    Associates("[", FixSpacing(g), "]" + FixSpacing(rest));
  }

  lemma BracketsAreSpaced()
    ensures Spaced("[") && Spaced("]")
  {
  }

  lemma {:induction false} TidiedPunctuation(segs: seq<Seg>)
    ensures BeforePunctuation(Tidied(segs)) <==> BeforePunctuation(segs)
  {
    if segs != [] {
      TidiedPunctuation(segs[1..]);
      assert Tidied(segs)[1..] == Tidied(segs[1..]);
    }
  }

  /** The third substitution removes exactly the whitespace before punctuation, inside groups and outside. */
  lemma {:induction false} FixSpacingByAnySegs(segs: seq<Seg>)
    ensures FixSpacing(Unparse(segs)) == Unparse(Tightened(Tidied(segs)))
  {
    hide FixSpacing, BeforePunctuation;
    if segs == [] {
      assert FixSpacing("") == "" by { NothingToFix(); }
    } else {
      var s, rest := Unparse(segs), segs[1..];
      FixSpacingByAnySegs(rest);
      assert Tidied(segs)[1..] == Tidied(rest);
      UnparseFirst(Tidied(segs)[0], Tightened(Tidied(rest)));
      match segs[0]
      case Group(g) => GroupTidied(g, Unparse(rest));
      case Char(c) =>
        assert s[0] == c && s[1..] == Unparse(rest);
        if IsSpace(c) {
          SpaceGoes(s);
          BeforePunctuationText(rest);
          TidiedPunctuation(rest);
        } else {
          FixSpacingCopies([c], Unparse(rest));
        }
    }
  }

  lemma {:induction false} FitsTidied(segs: seq<Seg>, pending: bool)
    requires Fits(segs, pending)
    ensures Fits(Tidied(segs), pending)
  {
    if segs != [] {
      hide FixSpacing;
      var rest := segs[1..];
      assert Tidied(segs)[1..] == Tidied(rest);
      match segs[0]
      case Group(g) =>
        FixSpacingInGroup(g);
        FitsTidied(rest, false);
      case Char(c) => FitsTidied(rest, if c == '[' then true else if c == ']' then false else pending && InGroup(c));
    }
  }

  /** Contents of groups with the spaces before commas gone. */
  function Tidy(groups: seq<string>): seq<string> {
    if groups == [] then [] else [FixSpacing(groups[0])] + Tidy(groups[1..])
  }

  lemma {:induction false} TidyMembers(groups: seq<string>)
    ensures |Tidy(groups)| == |groups| && forall k | 0 <= k < |groups| :: Tidy(groups)[k] == FixSpacing(groups[k])
  {
    if groups != [] {
      TidyMembers(groups[1..]);
    }
  }

  lemma {:induction false} ContentsTidied(segs: seq<Seg>)
    ensures Contents(Tidied(segs)) == Tidy(Contents(segs))
  {
    hide FixSpacing;
    if segs != [] {
      ContentsTidied(segs[1..]);
      assert Tidied(segs)[1..] == Tidied(segs[1..]);
      assert [] + Contents(segs[1..]) == Contents(segs[1..]);
      if segs[0].Group? {
        assert ([segs[0].content] + Contents(segs[1..]))[1..] == Contents(segs[1..]);
      }
    }
  }

  lemma {:induction false} ContentsTightened(segs: seq<Seg>)
    ensures Contents(Tightened(segs)) == Contents(segs)
  {
    hide BeforePunctuation;
    if segs != [] {
      ContentsTightened(segs[1..]);
      assert ([segs[0]] + Tightened(segs[1..]))[1..] == Tightened(segs[1..]);
      assert [] + Contents(segs[1..]) == Contents(segs[1..]);
    }
  }

  // ---------------------------------------------------------------------------
  // The verified body
  // ---------------------------------------------------------------------------

  /** After the first substitution, as its text reads. */
  function Cleaned(body: string, count: nat): seq<Seg> {
    Regrouped(CitedButEmpty(Parse(body), Indices(count)))
  }

  /** After the second substitution, as its text reads. */
  function Dropped(body: string, count: nat): seq<Seg> {
    Regrouped(WithoutBlank(Cleaned(body, count)))
  }

  /** The groups that come about where the text closes up: around a group without a valid index, if not blank,
      and around a blank one. */
  function NewGroups(body: string, count: nat): seq<string> {
    NonBlank(Formed(CitedButEmpty(Parse(body), Indices(count)))) + Formed(WithoutBlank(Cleaned(body, count)))
  }

  lemma {:induction false} ParsedOk(s: string)
    ensures GroupsOk(Parse(s))
    decreases |s|
  {
    hide Opens;
    if s != "" {
      ParsedOk(if Opens(s) then s[|Inside(s)| + 2..] else s[1..]);
    }
  }

  lemma {:induction false} CitedButEmptyOk(segs: seq<Seg>, count: nat)
    requires GroupsOk(segs)
    ensures GroupsOk(CitedButEmpty(segs, Indices(count)))
  {
    hide Tight;
    if segs != [] {
      CitedButEmptyOk(segs[1..], count);
      if segs[0].Group? {
        CitedGroupOk(segs[0].content, count);
      }
    }
  }

  lemma CitedGroupOk(g: string, count: nat)
    ensures GroupsOk(CitedGroup(g, Indices(count)))
  {
    KeptAreNumerals(Numbers(g), count);
    ListedIsTight(Keep(Numbers(g), Indices(count)));
  }

  lemma {:induction false} WithoutBlankOk(segs: seq<Seg>)
    requires GroupsOk(segs)
    ensures GroupsOk(WithoutBlank(segs))
  {
    hide IsBlank;
    if segs != [] {
      WithoutBlankOk(segs[1..]);
    }
  }

  /** How any verified body reads. */
  lemma VerifiedReads(body: string, count: nat)
    ensures Parse(Verified(body, count)) == Tightened(Tidied(Dropped(body, count)))
    ensures Verified(body, count) == Unparse(Tightened(Tidied(Dropped(body, count))))
    ensures Fits(Tightened(Tidied(Dropped(body, count))), false)
  {
    hide Parse, Unparse, Regrouped, CitedButEmpty, WithoutBlank, Tightened, Tidied, Fits, GroupsOk, Indices;
    var valid := Indices(count);
    var clean := CleanGroups(body, valid);
    var one := CitedButEmpty(Parse(body), valid);
    CleanGroupsBySegs(body, valid);
    ParsedOk(body);
    CitedButEmptyOk(Parse(body), count);
    ParseRegroups(one);
    RegroupedOk(one);
    DropBlankBySegs(clean);
    WithoutBlankOk(Cleaned(body, count));
    var two := WithoutBlank(Cleaned(body, count));
    ParseRegroups(two);
    UnparseParse(Unparse(two));
    FixSpacingByAnySegs(Dropped(body, count));
    ParseFits(Unparse(two), false);
    FitsTidied(Dropped(body, count), false);
    FitsTightened(Tidied(Dropped(body, count)), false);
    Reparse(Tightened(Tidied(Dropped(body, count))), false);
  }

  /** Which groups the verified body has: those kept, and the new ones. */
  lemma VerifiedContents(body: string, count: nat)
    ensures var cited := Contents(CitedButEmpty(Parse(body), Indices(count)));
            && Contents(Parse(Verified(body, count))) == Tidy(Contents(Dropped(body, count)))
            && forall g :: g in Contents(Dropped(body, count))
                      <==> (g in cited && !IsBlank(g)) || g in NewGroups(body, count)
  {
    hide Parse, Unparse, Verified, Regrouped, CitedButEmpty, WithoutBlank, Tightened, Tidied, Fits, Indices, Formed;
    var one := CitedButEmpty(Parse(body), Indices(count));
    VerifiedReads(body, count);
    ContentsTightened(Tidied(Dropped(body, count)));
    ContentsTidied(Dropped(body, count));
    ContentsRegrouped(WithoutBlank(Cleaned(body, count)));
    ContentsWithoutBlank(Cleaned(body, count));
    NonBlankMembers(Contents(Cleaned(body, count)));
    ContentsRegrouped(one);
    NonBlankMembers(Formed(one));
  }

  // ---------------------------------------------------------------------------
  // Whether all its groups list indices
  // ---------------------------------------------------------------------------

  /** The numbers of this group are distinct indices of findings, at least one. */
  ghost predicate ListsIndices(g: string, count: nat) {
    Numbers(g) != [] && Distinct(Numbers(g)) && forall x | x in Numbers(g) :: x in Indices(count)
  }

  lemma CitedListsIndices(g: string, count: nat)
    ensures forall k | 0 <= k < |CitedGroup(g, Indices(count))| ::
              var seg := CitedGroup(g, Indices(count))[k];
              seg.Group? && ListsIndices(seg.content, count) && FixSpacing(seg.content) == seg.content
  {
    hide Keep, Listed, Numbers;
    var valid := Indices(count);
    var nums := Keep(Numbers(g), valid);
    KeptAreNumerals(Numbers(g), count);
    NumbersOfListed(nums);
    KeepIsDistinct(Numbers(g), valid);
    KeepMembers(Numbers(g), valid);
    ListedIsTight(nums);
    TightStays(Listed(nums));
  }

  lemma TightStays(g: string)
    requires Tight(g)
    ensures FixSpacing(g) == g
  {
    NothingToFix();
    forall i | 0 <= i < |g| && IsSpace(g[i]) ensures i + 1 < |g| && !IsSpace(g[i + 1]) && !IsPunctuation(g[i + 1]) {
      assert IsDigit(g[i + 1]);
    }
    FixSpacingCopies(g, "");
    assert g + "" == g;
  }

  lemma {:induction false} KeptContents(segs: seq<Seg>, count: nat, g: string)
    requires g in Contents(CitedButEmpty(segs, Indices(count))) && !IsBlank(g)
    ensures ListsIndices(g, count) && FixSpacing(g) == g && CitedGroup(g, Indices(count)) == [Group(g)]
  {
    hide CitedGroup, FixSpacing, ListsIndices;
    if segs != [] {
      var valid, rest := Indices(count), CitedButEmpty(segs[1..], Indices(count));
      var first := if segs[0].Group? && segs[0].content != "" then CitedGroup(segs[0].content, valid) else [segs[0]];
      ContentsOfBoth(first, rest);
      if g in Contents(rest) {
        KeptContents(segs[1..], count, g);
      } else if segs[0].Group? {
        CitedListsIndices(segs[0].content, count);
        CitedGroupCanonical(segs[0].content, count);
        ContentsAreGroups(first, g);
      }
    }
  }

  lemma {:induction false} ContentsOfBoth(a: seq<Seg>, b: seq<Seg>)
    ensures Contents(a + b) == Contents(a) + Contents(b)
  {
    if a == [] {
      assert a + b == b;
    } else {
      ContentsOfBoth(a[1..], b);
      assert (a + b)[1..] == a[1..] + b && (a + b)[0] == a[0];
      Associates(if a[0].Group? then [a[0].content] else [], Contents(a[1..]), Contents(b));
    }
  }

  lemma {:induction false} ContentsAreGroups(segs: seq<Seg>, g: string)
    ensures g in Contents(segs) <==> Group(g) in segs
  {
    if segs != [] {
      ContentsAreGroups(segs[1..], g);
      assert segs == [segs[0]] + segs[1..];
    }
  }

  lemma TidiedListsIndices(g: string, count: nat)
    ensures ListsIndices(FixSpacing(g), count) <==> ListsIndices(g, count)
  {
    FixSpacingKeepsNumbers("", g);
  }

  /** Every group of the verified body lists indices of findings, exactly if every new group does. */
  lemma OnlyValidIff(body: string, count: nat)
    ensures (forall g | g in Contents(Parse(Verified(body, count))) :: ListsIndices(g, count))
       <==> (forall g | g in NewGroups(body, count) :: ListsIndices(g, count))
  {
    hide ListsIndices, Contents, NewGroups, Verified, Parse, CitedButEmpty, Dropped, Tidy, FixSpacing, IsBlank;
    var all := Contents(Dropped(body, count));
    VerifiedContents(body, count);
    TidyMembers(all);
    forall g | g in all ensures FixSpacing(g) in Tidy(all)
        && (ListsIndices(FixSpacing(g), count) <==> ListsIndices(g, count)) {
      TidiedListsIndices(g, count);
    }
    forall g | g in all && g !in NewGroups(body, count) ensures ListsIndices(g, count) {
      KeptContents(Parse(body), count, g);
    }
  }

  // ---------------------------------------------------------------------------
  // Whether its groups are the old ones
  // ---------------------------------------------------------------------------

  function Lists(groups: seq<string>): seq<seq<string>> {
    if groups == [] then [] else [Numbers(groups[0])] + Lists(groups[1..])
  }

  lemma {:induction false} ListsOfContents(segs: seq<Seg>)
    ensures NumberGroups(segs) == Lists(Contents(segs))
  {
    hide Numbers;
    if segs != [] {
      ListsOfContents(segs[1..]);
      assert [] + Contents(segs[1..]) == Contents(segs[1..]);
      assert [] + NumberGroups(segs[1..]) == NumberGroups(segs[1..]);
      if segs[0].Group? {
        assert ([segs[0].content] + Contents(segs[1..]))[1..] == Contents(segs[1..]);
      }
    }
  }

  lemma TidiedNumbers(g: string)
    ensures Numbers(FixSpacing(g)) == Numbers(g)
  {
    FixSpacingKeepsNumbers("", g);
  }

  lemma {:induction false} ListsTidied(groups: seq<string>)
    ensures Lists(Tidy(groups)) == Lists(groups) && |Lists(groups)| == |groups|
  {
    hide FixSpacing, Numbers;
    if groups != [] {
      ListsTidied(groups[1..]);
      TidiedNumbers(groups[0]);
      assert Tidy(groups)[1..] == Tidy(groups[1..]);
    }
  }

  lemma {:induction false} NonBlankOfBoth(a: seq<string>, b: seq<string>)
    ensures NonBlank(a + b) == NonBlank(a) + NonBlank(b)
  {
    if a == [] {
      assert a + b == b;
    } else {
      hide IsBlank, NonBlank;
      var rest := a[1..];
      var first := if IsBlank(a[0]) then [] else [a[0]];
      NonBlankOfBoth(rest, b);
      assert NonBlank(a) == first + NonBlank(rest) by {
        assert a == [a[0]] + rest;
        NonBlankFirst(a[0], rest);
      }
      assert NonBlank(a + b) == first + NonBlank(rest + b) by {
        assert a + b == [a[0]] + (rest + b);
        NonBlankFirst(a[0], rest + b);
      }
      Associates(first, NonBlank(rest), NonBlank(b));
    }
  }

  /** Groups read again: those there were and those formed; blank ones do not count. */
  ghost predicate Adds(read: seq<string>, kept: seq<string>, formed: seq<string>) {
    && |NonBlank(read)| == |NonBlank(kept)| + |NonBlank(formed)|
    && (NonBlank(formed) == [] ==> NonBlank(read) == NonBlank(kept))
  }

  lemma AddsFormed(g: string, read: seq<string>, kept: seq<string>, formed: seq<string>)
    requires Adds(read, kept, formed)
    ensures Adds([g] + read, kept, [g] + formed)
  {
    assert ([g] + read)[1..] == read && ([g] + formed)[1..] == formed;
    assert [] + NonBlank(read) == NonBlank(read) && [] + NonBlank(formed) == NonBlank(formed);
  }

  lemma AddsCopied(a: seq<string>, read: seq<string>, kept: seq<string>, formed: seq<string>)
    requires Adds(read, kept, formed)
    ensures Adds(a + read, a + kept, formed)
  {
    NonBlankOfBoth(a, read);
    NonBlankOfBoth(a, kept);
  }

  lemma {:induction false} RegroupedAdds(segs: seq<Seg>)
    ensures Adds(Contents(Regrouped(segs)), Contents(segs), Formed(segs))
    decreases |segs|
  {
    if segs != [] {
      hide FormsHere, FormedFirst, Behind, Adds, Contents;
      if FormsHere(segs) {
        var after := Behind(segs);
        RegroupedAdds(after);
        ContentsBehind(segs);
        ContentsFirst(Group(FormedFirst(segs)), Regrouped(after));
        AddsFormed(FormedFirst(segs), Contents(Regrouped(after)), Contents(after), Formed(after));
      } else {
        var rest := segs[1..];
        var first := if segs[0].Group? then [segs[0].content] else [];
        RegroupedAdds(rest);
        ContentsFirst(segs[0], Regrouped(rest));
        ContentsFirst(segs[0], rest);
        assert segs == [segs[0]] + rest;
        AddsCopied(first, Contents(Regrouped(rest)), Contents(rest), Formed(rest));
      }
    }
  }

  /** The groups of the first substitution that are not blank hold what is kept of the old ones. */
  lemma {:induction false} KeptLists(segs: seq<Seg>, count: nat)
    ensures Lists(NonBlank(Contents(CitedButEmpty(segs, Indices(count)))))
            == KeepEach(NumberGroups(segs), Indices(count))
  {
    var valid := Indices(count);
    CitedNumbers(segs, count);
    ListsOfContents(Cited(segs, valid));
    CitedButEmptyWithoutBlank(segs, count);
    ContentsWithoutBlank(CitedButEmpty(segs, valid));
  }

  /** The groups left are the old ones in order, each cut down to its distinct valid indices: exactly if there is
      no new one. */
  lemma GroupsAfterIff(body: string, count: nat)
    ensures NumberGroups(Parse(Verified(body, count))) == KeepEach(NumberGroups(Parse(body)), Indices(count))
       <==> NewGroups(body, count) == []
  {
    hide Parse, Verified, Regrouped, CitedButEmpty, WithoutBlank, Contents, Lists, Tidy, NonBlank, KeepEach,
      NumberGroups, Formed, Indices;
    var one := CitedButEmpty(Parse(body), Indices(count));
    var two := WithoutBlank(Cleaned(body, count));
    VerifiedContents(body, count);
    ListsOfContents(Parse(Verified(body, count)));
    ListsTidied(Contents(Dropped(body, count)));
    ContentsRegrouped(two);
    ContentsWithoutBlank(Cleaned(body, count));
    RegroupedAdds(one);
    KeptLists(Parse(body), count);
    ListsTidied(NonBlank(Contents(one)));
    if Formed(two) == [] {
      NothingFormedNothingRegrouped(two);
    }
  }

  // ---------------------------------------------------------------------------
  // Whether a second cleaning changes it
  // ---------------------------------------------------------------------------

  /** How many brackets open. */
  function Opening(segs: seq<Seg>): nat {
    if segs == [] then 0 else (if segs[0].Group? || segs[0].c == '[' then 1 else 0) + Opening(segs[1..])
  }

  lemma {:induction false} OpeningOfBoth(a: seq<Seg>, b: seq<Seg>)
    ensures Opening(a + b) == Opening(a) + Opening(b)
  {
    if a == [] {
      assert a + b == b;
    } else {
      OpeningOfBoth(a[1..], b);
      assert (a + b)[1..] == a[1..] + b && (a + b)[0] == a[0];
    }
  }

  lemma {:induction false} NoOpeningInRun(segs: seq<Seg>, n: nat)
    requires n <= CharRun(segs)
    ensures Opening(segs) == Opening(segs[n..])
  {
    hide CharRun, Unparse, Chars, ClosesHere;
    if n > 0 {
      CharRunStep(segs);
      NoOpeningInRun(segs[1..], n - 1);
      assert segs[1..][n - 1..] == segs[n..];
    } else {
      assert segs[0..] == segs;
    }
  }

  lemma OpeningFirst(seg: Seg, rest: seq<Seg>)
    ensures Opening([seg] + rest) == (if seg.Group? || seg.c == '[' then 1 else 0) + Opening(rest)
  {
    assert ([seg] + rest)[1..] == rest;
  }

  lemma OpeningBehind(segs: seq<Seg>)
    requires FormsHere(segs)
    ensures Opening(segs) == 1 + Opening(Behind(segs))
  {
    var rest := segs[1..];
    BehindIs(segs);
    NoOpeningInRun(rest, CharRun(rest));
    OpeningFirst(Char(']'), Behind(segs));
  }

  lemma {:induction false} OpeningRegrouped(segs: seq<Seg>)
    ensures Opening(Regrouped(segs)) == Opening(segs)
    decreases |segs|
  {
    if segs != [] {
      hide FormsHere, FormedFirst, Behind, Opening;
      if FormsHere(segs) {
        OpeningRegrouped(Behind(segs));
        OpeningBehind(segs);
        OpeningFirst(Group(FormedFirst(segs)), Regrouped(Behind(segs)));
      } else {
        var rest := segs[1..];
        OpeningRegrouped(rest);
        OpeningFirst(segs[0], Regrouped(rest));
        OpeningFirst(segs[0], rest);
        assert segs == [segs[0]] + rest;
      }
    }
  }

  lemma {:induction false} OpeningWithoutBlank(segs: seq<Seg>)
    ensures Opening(WithoutBlank(segs)) <= Opening(segs)
    ensures Opening(WithoutBlank(segs)) == Opening(segs) ==> WithoutBlank(segs) == segs
  {
    hide IsBlank;
    if segs != [] {
      OpeningWithoutBlank(segs[1..]);
      assert ([segs[0]] + WithoutBlank(segs[1..]))[1..] == WithoutBlank(segs[1..]);
      assert [] + WithoutBlank(segs[1..]) == WithoutBlank(segs[1..]);
    }
  }

  lemma {:induction false} OpeningTidied(segs: seq<Seg>)
    ensures Opening(Tightened(Tidied(segs))) == Opening(segs)
  {
    hide FixSpacing, BeforePunctuation;
    if segs != [] {
      OpeningTidied(segs[1..]);
      assert Tidied(segs)[1..] == Tidied(segs[1..]);
      assert ([Tidied(segs)[0]] + Tightened(Tidied(segs[1..])))[1..] == Tightened(Tidied(segs[1..]));
    }
  }

  /** No group goes when a bracket count stays: the segments keep their places. */
  lemma {:induction false} OpeningCited(segs: seq<Seg>, valid: set<string>, pending: bool)
    requires Fits(segs, pending) && GroupsOk(CitedButEmpty(segs, valid))
    ensures Opening(CitedButEmpty(segs, valid)) <= Opening(segs)
    ensures Opening(CitedButEmpty(segs, valid)) == Opening(segs) ==> Fits(CitedButEmpty(segs, valid), pending)
  {
    hide CitedGroup;
    if segs != [] {
      var rest, after := segs[1..], CitedButEmpty(segs[1..], valid);
      var first := if segs[0].Group? && segs[0].content != "" then CitedGroup(segs[0].content, valid) else [segs[0]];
      OneAtMost(segs[0], valid);
      assert CitedButEmpty(segs, valid) == first + after;
      OkSplit(first, after);
      OpeningOfBoth(first, after);
      match segs[0]
      case Char(c) =>
        assert (first + after)[1..] == after;
        OpeningCited(rest, valid, if c == '[' then true else if c == ']' then false else pending && InGroup(c));
      case Group(g) =>
        OpeningCited(rest, valid, false);
        if |first| == 1 {
          assert (first + after)[1..] == after;
        }
    }
  }

  lemma OkSplit(a: seq<Seg>, b: seq<Seg>)
    requires GroupsOk(a + b)
    ensures GroupsOk(a) && GroupsOk(b)
  {
    forall i | 0 <= i < |a| && a[i].Group? ensures AllInGroup(a[i].content) {
      assert (a + b)[i] == a[i];
    }
    forall i | 0 <= i < |b| && b[i].Group? ensures AllInGroup(b[i].content) {
      assert (a + b)[|a| + i] == b[i];
    }
  }

  lemma OneAtMost(seg: Seg, valid: set<string>)
    ensures seg.Group? ==>
              var one := CitedGroup(seg.content, valid);
              one == [] || (|one| == 1 && one[0].Group?)
    ensures seg.Group? ==> Opening(CitedGroup(seg.content, valid)) == |CitedGroup(seg.content, valid)|
    ensures Opening([seg]) <= 1 && (seg.Group? ==> Opening([seg]) == 1)
  {
  }

  /** A fixed point of the cleaning loses no group, so its groups are as the cleaning writes them. */
  lemma StableForm(v: string, count: nat)
    requires Verified(v, count) == v
    ensures FormsNoGroup(v, count)
  {
    hide Parse, Unparse, Verified, Regrouped, CitedButEmpty, WithoutBlank, Tightened, Tidied, Fits, Indices, Cited,
      Opening, GroupsOk;
    var segs, valid := Parse(v), Indices(count);
    var one := CitedButEmpty(segs, valid);
    VerifiedReads(v, count);
    OpeningTidied(Dropped(v, count));
    OpeningRegrouped(WithoutBlank(Cleaned(v, count)));
    OpeningWithoutBlank(Cleaned(v, count));
    OpeningRegrouped(one);
    ParseFits(v, false);
    ParsedOk(v);
    CitedButEmptyOk(segs, count);
    OpeningCited(segs, valid, false);
    assert Opening(one) == Opening(segs);
    Reparse(one, false);
    ParseRegroups(one);
    CitedButEmptyWithoutBlank(segs, count);
  }

  lemma {:induction false} SameLengthNoneDropped(segs: seq<Seg>)
    ensures |Tightened(segs)| <= |segs|
    ensures |Tightened(segs)| == |segs| ==> Tightened(segs) == segs
  {
    hide BeforePunctuation;
    if segs != [] {
      SameLengthNoneDropped(segs[1..]);
    }
  }

  lemma {:induction false} CitedNoLonger(segs: seq<Seg>, valid: set<string>)
    ensures |Cited(segs, valid)| <= |segs|
    ensures Cited(segs, valid) == segs ==> Canonical(segs, valid)
  {
    hide CitedGroup;
    if segs != [] {
      CitedNoLonger(segs[1..], valid);
      OneAtMost(segs[0], valid);
      var first := if segs[0].Group? then CitedGroup(segs[0].content, valid) else [segs[0]];
      var rest := Cited(segs[1..], valid);
      if first + rest == segs {
        assert |first| == 1;
        assert first == [(first + rest)[0]] && rest == (first + rest)[1..];
      }
    }
  }

  /** A text stays as it is exactly if cleaning its groups and its spaces leaves its segments alone. */
  lemma StableIff(v: string, count: nat)
    requires Tightened(Parse(v)) == Parse(v)
    ensures Verified(v, count) == v <==> Canonical(Parse(v), Indices(count))
  {
    hide Parse, Unparse, Verified, Tightened, Fits, Indices, Cited, Canonical;
    var segs, valid := Parse(v), Indices(count);
    UnparseParse(v);
    if Canonical(segs, valid) {
      CanonicalStays(segs, valid);
      ParseFits(v, false);
      VerifiedBySegs(v, count);
    }
    if Verified(v, count) == v {
      StableForm(v, count);
      ExactIffFormsNoGroup(v, count);
      SameLengthNoneDropped(Cited(segs, valid));
      CitedNoLonger(segs, valid);
    }
  }

  /** A group that a second cleaning writes as it is. */
  ghost predicate Final(g: string, count: nat) {
    CitedGroup(g, Indices(count)) == [Group(g)]
  }

  lemma CanonicalIffContents(segs: seq<Seg>, count: nat)
    ensures Canonical(segs, Indices(count)) <==> forall g | g in Contents(segs) :: Final(g, count)
  {
    hide CitedGroup, Contents;
    forall g ensures g in Contents(segs) <==> Group(g) in segs {
      ContentsAreGroups(segs, g);
    }
    if Canonical(segs, Indices(count)) {
      forall g | g in Contents(segs) ensures Final(g, count) {
        var k :| 0 <= k < |segs| && segs[k] == Group(g);
      }
    }
    if forall g | g in Contents(segs) :: Final(g, count) {
      forall k | 0 <= k < |segs| && segs[k].Group? ensures CitedGroup(segs[k].content, Indices(count)) == [segs[k]] {
        assert Group(segs[k].content) in segs;
        assert Final(segs[k].content, count);
      }
    }
  }

  /** Cleaning a cleaned body changes nothing, exactly if every new group, its spaces tidied, is a list as the
      cleaning writes it. */
  lemma IdempotentIff(body: string, count: nat)
    ensures Verified(Verified(body, count), count) == Verified(body, count)
       <==> forall g | g in NewGroups(body, count) :: Final(FixSpacing(g), count)
  {
    hide Contents, NewGroups, Verified, Parse, CitedButEmpty, Dropped, Tidy, Tidied, Tightened, FixSpacing, IsBlank,
      Final;
    var v, all := Verified(body, count), Contents(Dropped(body, count));
    VerifiedReads(body, count);
    TightenedTwice(Tidied(Dropped(body, count)));
    StableIff(v, count);
    CanonicalIffContents(Parse(v), count);
    VerifiedContents(body, count);
    TidyMembers(all);
    forall g | g in all && g !in NewGroups(body, count) ensures Final(FixSpacing(g), count) {
      KeptFinal(Parse(body), count, g);
    }
    forall g | g in all ensures FixSpacing(g) in Tidy(all) {
    }
  }

  lemma KeptFinal(segs: seq<Seg>, count: nat, g: string)
    requires g in Contents(CitedButEmpty(segs, Indices(count))) && !IsBlank(g)
    ensures Final(FixSpacing(g), count)
  {
    KeptContents(segs, count, g);
  }

  /** Where no bracket opens before the last one has closed, there are none. */
  lemma NotNestedNothingNew(body: string, count: nat)
    requires NotNested(body, false)
    ensures NewGroups(body, count) == []
  {
    NotNestedFormsNoGroup(body, count);
    GroupsAfter(body, count);
    GroupsAfterIff(body, count);
  }

  lemma SevenIsNoIndex()
    ensures CitedGroup("7", Indices(5)) == []
  {
    assert Numbers("7") == ["7"] by {
      assert "7"[1..] == "" && "" + ['7'] == "7";
    }
    assert "7" !in Indices(5);
    assert ["7"][..0] == [];
  }

  lemma SevenParsed()
    ensures Parse("[7]") == [Group("7")] && Tightened([]) == [] && Fits([], false)
  {
    GroupAtHead("7", "");
    assert "[7]" == "[" + "7" + "]" + "";
    ParseOpen("[7]");
    NothingParsed();
  }

  /** Nested brackets: each cleaning uncovers a group for the next. */
  lemma {:induction false} SecondCleaningChanges()
    ensures Verified("[[9]7]", 5) == "[7]" && Verified("[7]", 5) == ""
  {
    hide Verified, CitedGroup, Indices, Parse, Tightened, Fits;
    NestedBracketsFormAGroup();
    SevenIsNoIndex();
    SevenParsed();
    assert Cited([Group("7")], Indices(5)) == [] by {
      assert [Group("7")][1..] == [];
    }
    VerifiedBySegs("[7]", 5);
  }
}

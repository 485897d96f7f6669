/**
 `CitationVerifierAgent` (core/research/agents/citation_verifier.py): citation
 groups lose every number that is no finding's index, and the text closes up.
 */
module Citations {
  import opened Text
  import opened CitationText
  import opened Report

  // ---------------------------------------------------------------------------
  // One group
  // ---------------------------------------------------------------------------

  /** `re.findall(r"\d+", s)`; `run` is the number read so far. */
  function NumbersAfter(run: string, s: string): seq<string>
    decreases |s|
  {
    if s != "" && IsDigit(s[0]) then NumbersAfter(run + [s[0]], s[1..])
    else (if run != "" then [run] else []) + (if s == "" then [] else NumbersAfter("", s[1..]))
  }

  function Numbers(s: string): seq<string> {
    NumbersAfter("", s)
  }

  /** The indices of `count` findings, written out. */
  function Indices(count: nat): set<string> {
    set i | 1 <= i <= count :: Decimal(i)
  }

  /** There is one index for each finding. */
  lemma {:induction false} IndicesCount(count: nat)
    ensures |Indices(count)| == count
  {
    if count > 0 {
      IndicesCount(count - 1);
      assert Indices(count) == Indices(count - 1) + {Decimal(count)};
      if Decimal(count) in Indices(count - 1) {
        var i :| 1 <= i <= count - 1 && Decimal(i) == Decimal(count);
        DecimalInjective(i, count);
      }
    }
  }

  /** And an index names one finding only. */
  lemma IndexNamesOne(x: string, count: nat) returns (i: nat)
    requires x in Indices(count)
    ensures 1 <= i <= count && forall j: nat :: Decimal(j) == x <==> j == i
  {
    i :| 1 <= i <= count && Decimal(i) == x;
    forall j: nat | Decimal(j) == x ensures j == i {
      DecimalInjective(j, i);
    }
  }

  /** The numbers in `valid`, each at its first occurrence. */
  function Keep(nums: seq<string>, valid: set<string>): seq<string> {
    if nums == [] then []
    else
      var n := |nums| - 1;
      Keep(nums[..n], valid) + if nums[n] in valid && nums[n] !in nums[..n] then [nums[n]] else []
  }

  /** `", ".join(nums)` */
  function Listed(nums: seq<string>): string {
    if nums == [] then "" else if |nums| == 1 then nums[0] else nums[0] + ", " + Listed(nums[1..])
  }

  /** What takes the place of a group. */
  function Replacement(group: string, valid: set<string>): string {
    var nums := Keep(Numbers(group), valid);
    if nums == [] then "" else "[" + Listed(nums) + "]"
  }

  lemma {:induction false} KeepMembers(nums: seq<string>, valid: set<string>)
    ensures forall x :: x in Keep(nums, valid) <==> x in nums && x in valid
  {
    if nums != [] {
      var n := |nums| - 1;
      KeepMembers(nums[..n], valid);
      assert nums == nums[..n] + [nums[n]];
    }
  }

  /** `clean_citation_match` */
  method CleanCitationMatch(group: string, valid: set<string>) returns (r: string)
    ensures r == Replacement(group, valid)
  {
    var nums := Numbers(group);
    var seen: set<string> := {};
    var kept: seq<string> := [];
    for i := 0 to |nums|
      invariant kept == Keep(nums[..i], valid)
      invariant forall x :: x in seen <==> x in kept
    {
      assert nums[..i + 1][..i] == nums[..i];
      KeepMembers(nums[..i], valid);
      if nums[i] in valid && nums[i] !in seen {
        kept := kept + [nums[i]];
        seen := seen + {nums[i]};
      }
    }
    assert nums[..|nums|] == nums;
    if kept == [] {
      return "";
    }
    r := "[" + Listed(kept) + "]";
  }

  /** The kept numbers: which ones, and in their old order. */
  lemma {:induction false} KeptInOrder(nums: seq<string>, valid: set<string>) returns (places: seq<nat>)
    ensures |places| == |Keep(nums, valid)|
    ensures forall a | 0 <= a < |places| :: places[a] < |nums| && Keep(nums, valid)[a] == nums[places[a]]
    ensures forall a, b | 0 <= a < b < |places| :: places[a] < places[b]
    ensures forall i | 0 <= i < |nums| :: i in places <==> FirstValid(nums, valid, i)
  {
    hide FirstValid, Keep;
    KeepStep(nums, valid);
    places := [];
    if nums != [] {
      var n := |nums| - 1;
      places := KeptInOrder(nums[..n], valid);
      forall i | 0 <= i < n ensures FirstValid(nums[..n], valid, i) <==> FirstValid(nums, valid, i) {
        FirstValidStays(nums, valid, n, i);
      }
      if FirstValid(nums, valid, n) {
        places := places + [n];
      }
    }
  }

  /** A number that is an index and has not occurred before. */
  predicate FirstValid(nums: seq<string>, valid: set<string>, i: nat)
    requires i < |nums|
  {
    nums[i] in valid && nums[i] !in nums[..i]
  }

  lemma FirstValidStays(nums: seq<string>, valid: set<string>, n: nat, i: nat)
    requires i < n <= |nums|
    ensures FirstValid(nums[..n], valid, i) <==> FirstValid(nums, valid, i)
  {
    assert nums[..n][..i] == nums[..i];
  }

  lemma KeepStep(nums: seq<string>, valid: set<string>)
    ensures nums == [] ==> Keep(nums, valid) == []
    ensures nums != [] ==>
              var n := |nums| - 1;
              Keep(nums, valid) == Keep(nums[..n], valid) + if FirstValid(nums, valid, n) then [nums[n]] else []
  {
  }

  ghost predicate Distinct(nums: seq<string>) {
    forall a, b | 0 <= a < b < |nums| :: nums[a] != nums[b]
  }

  lemma {:induction false} KeepIsDistinct(nums: seq<string>, valid: set<string>)
    ensures Distinct(Keep(nums, valid))
  {
    if nums != [] {
      KeepIsDistinct(nums[..|nums| - 1], valid);
      KeepMembers(nums[..|nums| - 1], valid);
    }
  }

  lemma {:induction false} KeepAll(nums: seq<string>, valid: set<string>)
    requires Distinct(nums) && forall x | x in nums :: x in valid
    ensures Keep(nums, valid) == nums
  {
    if nums != [] {
      var n := |nums| - 1;
      assert nums == nums[..n] + [nums[n]];
      KeepAll(nums[..n], valid);
    }
  }

  ghost predicate Numerals(nums: seq<string>) {
    forall a | 0 <= a < |nums| :: nums[a] != "" && forall i | 0 <= i < |nums[a]| :: IsDigit(nums[a][i])
  }

  lemma KeptAreNumerals(nums: seq<string>, count: nat)
    ensures Numerals(Keep(nums, Indices(count)))
  {
    KeepMembers(nums, Indices(count));
    forall a | 0 <= a < |Keep(nums, Indices(count))|
      ensures var x := Keep(nums, Indices(count))[a];
              x != "" && forall i | 0 <= i < |x| :: IsDigit(x[i])
    {
      var x := Keep(nums, Indices(count))[a];
      assert x in Indices(count);
      var i :| 1 <= i <= count && Decimal(i) == x;
    }
  }

  lemma {:induction false} DigitsJoinTheRun(run: string, d: string, t: string)
    requires forall i | 0 <= i < |d| :: IsDigit(d[i])
    ensures NumbersAfter(run, d + t) == NumbersAfter(run + d, t)
    decreases |d|
  {
    if d == "" {
      assert d + t == t && run + d == run;
    } else {
      assert (d + t)[1..] == d[1..] + t && run + [d[0]] + d[1..] == run + d;
      DigitsJoinTheRun(run + [d[0]], d[1..], t);
    }
  }

  lemma NumbersStep(run: string, c: char, t: string)
    ensures NumbersAfter(run, [c] + t) == if IsDigit(c) then NumbersAfter(run + [c], t)
                                          else (if run != "" then [run] else []) + NumbersAfter("", t)
  {
    assert ([c] + t)[1..] == t;
  }

  lemma CommaEnds(d: string, rest: string)
    requires d != ""
    ensures NumbersAfter(d, ", " + rest) == [d] + NumbersAfter("", rest)
  {
    hide NumbersAfter;
    NumbersStep(d, ',', " " + rest);
    NumbersStep("", ' ', rest);
    assert [','] + (" " + rest) == ", " + rest && [' '] + rest == " " + rest;
    assert [] + NumbersAfter("", rest) == NumbersAfter("", rest);
  }

  lemma OneNumber(d: string)
    requires d != ""
    ensures NumbersAfter(d, "") == [d]
  {
  }

  /** A written list of numbers reads back as those numbers. */
  lemma {:induction false} NumbersOfListed(nums: seq<string>)
    requires Numerals(nums)
    ensures Numbers(Listed(nums)) == nums
  {
    if nums != [] {
      var d := nums[0];
      hide NumbersAfter;
      assert "" + d == d;
      if |nums| == 1 {
        DigitsJoinTheRun("", d, "");
        OneNumber(d);
        assert d + "" == d;
      } else {
        var rest := Listed(nums[1..]);
        NumbersOfListed(nums[1..]);
        DigitsJoinTheRun("", d, ", " + rest);
        CommaEnds(d, rest);
        assert Listed(nums) == d + (", " + rest) && nums == [d] + nums[1..];
      }
    }
  }

  /** Group characters only, and every space stands between a comma and a digit. */
  ghost predicate Tight(g: string) {
    && (forall i | 0 <= i < |g| :: InGroup(g[i]))
    && (forall i | 0 <= i < |g| && IsSpace(g[i]) :: i + 1 < |g| && IsDigit(g[i + 1]))
  }

  lemma {:induction false} ListedIsTight(nums: seq<string>)
    requires Numerals(nums)
    ensures Tight(Listed(nums))
    ensures nums != [] ==> Listed(nums) != "" && IsDigit(Listed(nums)[0])
  {
    if |nums| > 1 {
      ListedIsTight(nums[1..]);
      var d, rest := nums[0], Listed(nums[1..]);
      var g := d + ", " + rest;
      forall i | 0 <= i < |g| ensures InGroup(g[i]) && (IsSpace(g[i]) ==> i + 1 < |g| && IsDigit(g[i + 1])) {
        if i < |d| {
          assert g[i] == d[i];
        } else if i >= |d| + 2 {
          assert g[i] == rest[i - |d| - 2];
        }
      }
    }
  }

  // ---------------------------------------------------------------------------
  // The three substitutions
  // ---------------------------------------------------------------------------

  /** `re.sub(r"\[[\d,\s]+\]", clean_citation_match, s)` */
  function CleanGroups(s: string, valid: set<string>): string
    decreases |s|
  {
    if s == "" then ""
    else if Opens(s) && Inside(s) != "" then Replacement(Inside(s), valid) + CleanGroups(s[|Inside(s)| + 2..], valid)
    else [s[0]] + CleanGroups(s[1..], valid)
  }

  /** `re.sub(r"\[\s*\]", "", s)` */
  function DropBlank(s: string): string
    decreases |s|
  {
    if s == "" then ""
    else
      var n := SpaceRun(s[1..]);
      if s[0] == '[' && n + 1 < |s| && s[n + 1] == ']' then DropBlank(s[n + 2..])
      else [s[0]] + DropBlank(s[1..])
  }

  predicate IsPunctuation(c: char) {
    c in ".,;:!?"
  }

  /** `re.sub(r"\s+([.,;:!?])", r"\1", s)` */
  function FixSpacing(s: string): string
    decreases |s|
  {
    if s == "" then ""
    else
      var n := SpaceRun(s);
      if 0 < n < |s| && IsPunctuation(s[n]) then [s[n]] + FixSpacing(s[n + 1..])
      else [s[0]] + FixSpacing(s[1..])
  }

  function Verified(body: string, count: nat): string {
    FixSpacing(DropBlank(CleanGroups(body, Indices(count))))
  }

  // ---------------------------------------------------------------------------
  // The same on segments
  // ---------------------------------------------------------------------------

  /** A group's valid indices as a group, or nothing. */
  function CitedGroup(g: string, valid: set<string>): seq<Seg> {
    var nums := Keep(Numbers(g), valid);
    if nums == [] then [] else [Group(Listed(nums))]
  }

  /** Each group replaced by its valid indices, and gone if it has none. */
  function Cited(segs: seq<Seg>, valid: set<string>): seq<Seg> {
    if segs == [] then []
    else (if segs[0].Group? then CitedGroup(segs[0].content, valid) else [segs[0]]) + Cited(segs[1..], valid)
  }

  /** The first substitution alone: it leaves empty brackets as they are. */
  function CitedButEmpty(segs: seq<Seg>, valid: set<string>): seq<Seg> {
    if segs == [] then []
    else
      (if segs[0].Group? && segs[0].content != "" then CitedGroup(segs[0].content, valid) else [segs[0]])
      + CitedButEmpty(segs[1..], valid)
  }

  predicate IsBlank(g: string) {
    forall i | 0 <= i < |g| :: IsSpace(g[i])
  }

  function WithoutBlank(segs: seq<Seg>): seq<Seg> {
    if segs == [] then []
    else (if segs[0].Group? && IsBlank(segs[0].content) then [] else [segs[0]]) + WithoutBlank(segs[1..])
  }

  /** Only whitespace between here and a punctuation mark. */
  predicate BeforePunctuation(segs: seq<Seg>) {
    && segs != [] && segs[0].Char?
    && (IsPunctuation(segs[0].c) || (IsSpace(segs[0].c) && BeforePunctuation(segs[1..])))
  }

  function Tightened(segs: seq<Seg>): seq<Seg> {
    if segs == [] then []
    else if segs[0].Char? && IsSpace(segs[0].c) && BeforePunctuation(segs[1..]) then Tightened(segs[1..])
    else [segs[0]] + Tightened(segs[1..])
  }

  lemma CitedGroupText(g: string, valid: set<string>, rest: seq<Seg>)
    ensures Unparse(CitedGroup(g, valid) + rest) == Replacement(g, valid) + Unparse(rest)
  {
    var nums := Keep(Numbers(g), valid);
    if nums == [] {
      assert [] + rest == rest && "" + Unparse(rest) == Unparse(rest);
    } else {
      UnparseFirst(Group(Listed(nums)), rest);
    }
  }

  lemma EmptyGroupStays(s: string, valid: set<string>)
    requires Opens(s) && Inside(s) == ""
    ensures CleanGroups(s, valid) == "[]" + CleanGroups(s[2..], valid)
  {
    assert s[0] == '[' && s[1] == ']' && s[1..][1..] == s[2..];
    assert CleanGroups(s[1..], valid) == "]" + CleanGroups(s[2..], valid);
  }

  lemma {:induction false} CleanGroupsBySegs(s: string, valid: set<string>)
    ensures CleanGroups(s, valid) == Unparse(CitedButEmpty(Parse(s), valid))
    decreases |s|
  {
    hide Opens, CitedGroup, Replacement;
    if s != "" {
      if Opens(s) {
        var g := Inside(s);
        var rest := s[|g| + 2..];
        CleanGroupsBySegs(rest, valid);
        ParseOpen(s);
        if g == "" {
          EmptyGroupStays(s, valid);
          UnparseFirst(Group(g), CitedButEmpty(Parse(rest), valid));
        } else {
          CitedGroupText(g, valid, CitedButEmpty(Parse(rest), valid));
        }
      } else {
        CleanGroupsBySegs(s[1..], valid);
        ParseChar(s);
        UnparseFirst(Char(s[0]), CitedButEmpty(Parse(s[1..]), valid));
      }
    }
  }

  lemma SpacesEndTheRun(x: string)
    requires SpaceRun(x) < |x| && x[SpaceRun(x)] == ']'
    ensures Run(x) == SpaceRun(x)
  {
    var n := SpaceRun(x);
    assert x == x[..n] + x[n..];
    RunOf(x[..n], x[n..]);
  }

  lemma {:induction false} DropBlankCopies(x: string, t: string)
    requires forall i | 0 <= i < |x| :: x[i] != '['
    ensures DropBlank(x + t) == x + DropBlank(t)
  {
    if x == "" {
      assert x + t == t;
    } else {
      assert (x + t)[1..] == x[1..] + t;
      DropBlankCopies(x[1..], t);
    }
  }

  lemma SpaceRunOf(g: string, t: string)
    requires t != "" && !IsSpace(t[0])
    ensures if IsBlank(g) then SpaceRun(g + t) == |g| else SpaceRun(g + t) < |g|
  {
    assert (g + t)[|g|] == t[0];
    assert forall i | 0 <= i < |g| :: (g + t)[i] == g[i];
  }

  /** A bracket, group characters and a bracket: `t` is what the opening bracket is followed by. */
  lemma DropBlankAt(g: string, t: string)
    requires |g| < |t| && g <= t && t[|g|] == ']' && forall i | 0 <= i < |g| :: g[i] != ']'
    ensures DropBlank("[" + t) == if IsBlank(g) then DropBlank(t[|g| + 1..]) else "[" + DropBlank(t)
  {
    var s := "[" + t;
    assert t == g + t[|g|..] && s[1..] == t;
    SpaceRunOf(g, t[|g|..]);
    if IsBlank(g) {
      assert s[|g| + 2..] == t[|g| + 1..];
    }
  }

  lemma DropBlankGroup(g: string, rest: string)
    requires forall i | 0 <= i < |g| :: InGroup(g[i])
    ensures DropBlank("[" + g + "]" + rest) == if IsBlank(g) then DropBlank(rest) else "[" + g + "]" + DropBlank(rest)
  {
    hide IsBlank, DropBlank, SpaceRun;
    var t := g + "]" + rest;
    assert "[" + g + "]" + rest == "[" + t && t[|g| + 1..] == rest && t[..|g|] == g;
    DropBlankAt(g, t);
    if !IsBlank(g) {
      DropBlankCopies(g + "]", rest);
      assert "[" + (g + "]" + DropBlank(rest)) == "[" + g + "]" + DropBlank(rest);
    }
  }

  lemma {:induction false} DropBlankBySegs(s: string)
    ensures DropBlank(s) == Unparse(WithoutBlank(Parse(s)))
    decreases |s|
  {
    if s != "" {
      if Opens(s) {
        hide DropBlank, Opens;
        var g := Inside(s);
        var rest := s[|g| + 2..];
        DropBlankBySegs(rest);
        ParseOpen(s);
        WholeGroup(s);
        DropBlankGroup(g, rest);
        if IsBlank(g) {
          assert [] + WithoutBlank(Parse(rest)) == WithoutBlank(Parse(rest));
        } else {
          UnparseFirst(Group(g), WithoutBlank(Parse(rest)));
        }
      } else {
        DropBlankBySegs(s[1..]);
        ParseChar(s);
        if s[0] == '[' && SpaceRun(s[1..]) + 1 < |s| && s[SpaceRun(s[1..]) + 1] == ']' {
          SpacesEndTheRun(s[1..]);
        }
        UnparseFirst(Char(s[0]), WithoutBlank(Parse(s[1..])));
      }
    }
  }

  /** Every space here is followed by a character that is neither space nor punctuation. */
  predicate Spaced(x: string) {
    forall i | 0 <= i < |x| && IsSpace(x[i]) :: i + 1 < |x| && !IsSpace(x[i + 1]) && !IsPunctuation(x[i + 1])
  }

  lemma SpacedLater(x: string)
    requires x != "" && Spaced(x)
    ensures Spaced(x[1..])
  {
    forall i | 0 <= i < |x[1..]| && IsSpace(x[1..][i])
      ensures i + 1 < |x[1..]| && !IsSpace(x[1..][i + 1]) && !IsPunctuation(x[1..][i + 1]) {
      assert x[1..][i] == x[i + 1];
    }
  }

  lemma FirstCopied(x: string, t: string)
    requires x != "" && Spaced(x)
    ensures FixSpacing(x + t) == [x[0]] + FixSpacing(x[1..] + t)
  {
    var s := x + t;
    assert s[0] == x[0] && s[1..] == x[1..] + t;
    if IsSpace(x[0]) {
      assert s[1] == x[1] && SpaceRun(s[1..]) == 0;
    }
  }

  /** Such a text is not touched, whatever follows. */
  lemma {:induction false} FixSpacingCopies(x: string, t: string)
    requires Spaced(x)
    ensures FixSpacing(x + t) == x + FixSpacing(t)
  {
    hide Spaced, FixSpacing;
    if x == "" {
      assert x + t == t;
    } else {
      SpacedLater(x);
      FirstCopied(x, t);
      FixSpacingCopies(x[1..], t);
      assert x == [x[0]] + x[1..];
      assert [x[0]] + (x[1..] + FixSpacing(t)) == x + FixSpacing(t);
    }
  }

  predicate SpacesThenPunctuation(s: string) {
    SpaceRun(s) < |s| && IsPunctuation(s[SpaceRun(s)])
  }

  lemma {:induction false} BeforePunctuationText(segs: seq<Seg>)
    ensures BeforePunctuation(segs) <==> SpacesThenPunctuation(Unparse(segs))
  {
    if segs != [] {
      BeforePunctuationText(segs[1..]);
      match segs[0]
      case Group(g) => assert Unparse(segs)[0] == '[';
      case Char(c) => assert Unparse(segs)[0] == c && Unparse(segs)[1..] == Unparse(segs[1..]);
    }
  }

  lemma SpaceGoes(s: string)
    requires s != "" && IsSpace(s[0])
    ensures FixSpacing(s) == if SpacesThenPunctuation(s[1..]) then FixSpacing(s[1..]) else [s[0]] + FixSpacing(s[1..])
  {
    var n := SpaceRun(s);
    assert n == 1 + SpaceRun(s[1..]);
    if SpacesThenPunctuation(s[1..]) {
      assert s[n..][0] == s[n];
      assert s[1..][n - 1] == s[n] && s[1..][n..] == s[n + 1..];
      if n == 1 {
        assert FixSpacing(s[1..]) == [s[1]] + FixSpacing(s[1..][1..]);
      }
    }
  }

  ghost predicate AllTight(segs: seq<Seg>) {
    forall k | 0 <= k < |segs| && segs[k].Group? :: Tight(segs[k].content)
  }

  lemma TightGroupCopied(g: string, rest: string)
    requires Tight(g)
    ensures FixSpacing("[" + g + "]" + rest) == "[" + g + "]" + FixSpacing(rest)
  {
    var x := "[" + g + "]";
    forall i | 0 <= i < |x| && IsSpace(x[i]) ensures i + 1 < |x| && !IsSpace(x[i + 1]) && !IsPunctuation(x[i + 1]) {
      assert x[i] == g[i - 1];
      assert x[i + 1] == g[i];
    }
    FixSpacingCopies(x, rest);
  }

  lemma {:induction false} FixSpacingBySegs(segs: seq<Seg>)
    requires AllTight(segs)
    ensures FixSpacing(Unparse(segs)) == Unparse(Tightened(segs))
  {
    hide Tight, FixSpacing, BeforePunctuation;
    if segs == [] {
      assert FixSpacing("") == "" by { NothingToFix(); }
    } else {
      var s, rest := Unparse(segs), segs[1..];
      FixSpacingBySegs(rest);
      UnparseFirst(segs[0], Tightened(rest));
      match segs[0]
      case Group(g) => TightGroupCopied(g, Unparse(rest));
      case Char(c) =>
        assert s[0] == c && s[1..] == Unparse(rest);
        if IsSpace(c) {
          SpaceGoes(s);
          BeforePunctuationText(rest);
        } else {
          FixSpacingCopies([c], Unparse(rest));
        }
    }
  }

  lemma NothingToFix()
    ensures FixSpacing("") == ""
  {
  }

  // ---------------------------------------------------------------------------
  // When the cleaned text has exactly the cleaned groups
  // ---------------------------------------------------------------------------

  /** With the groups that hold no valid index left out, what remains forms no new group. */
  ghost predicate FormsNoGroup(body: string, count: nat) {
    Fits(Cited(Parse(body), Indices(count)), false)
  }

  lemma {:induction false} FitsWithEmpty(segs: seq<Seg>, valid: set<string>, pending: bool)
    requires Fits(Cited(segs, valid), pending)
    ensures Fits(CitedButEmpty(segs, valid), pending)
  {
    hide CitedGroup;
    if segs != [] {
      var rest := segs[1..];
      match segs[0]
      case Char(c) =>
        assert Cited(segs, valid)[0] == segs[0] && Cited(segs, valid)[1..] == Cited(rest, valid);
        assert CitedButEmpty(segs, valid)[1..] == CitedButEmpty(rest, valid);
        FitsWithEmpty(rest, valid, if c == '[' then true else if c == ']' then false else pending && InGroup(c));
      case Group(g) =>
        NoNumbers(valid);
        GroupFits(g, valid, Cited(rest, valid), CitedButEmpty(rest, valid), pending);
        FitsWithEmpty(rest, valid, if CitedGroup(g, valid) == [] then pending else false);
        if g == "" {
          assert [] + Cited(rest, valid) == Cited(rest, valid);
          assert CitedButEmpty(segs, valid)[1..] == CitedButEmpty(rest, valid);
          if pending {
            NothingPendingIsEasier(CitedButEmpty(rest, valid));
          }
        }
    }
  }

  lemma NoNumbers(valid: set<string>)
    ensures CitedGroup("", valid) == []
  {
  }

  /** One cited group in front of two texts. */
  lemma GroupFits(g: string, valid: set<string>, a: seq<Seg>, b: seq<Seg>, pending: bool)
    ensures var next := if CitedGroup(g, valid) == [] then pending else false;
            && (Fits(CitedGroup(g, valid) + a, pending) ==> Fits(a, next))
            && (Fits(CitedGroup(g, valid) + a, pending) && Fits(b, next) ==> Fits(CitedGroup(g, valid) + b, pending))
  {
    var one := CitedGroup(g, valid);
    if one == [] {
      assert one + a == a && one + b == b;
    } else {
      assert (one + a)[1..] == a && (one + b)[1..] == b;
    }
  }

  lemma {:induction false} FitsTightened(segs: seq<Seg>, pending: bool)
    ensures Fits(Tightened(segs), pending) <==> Fits(segs, pending)
  {
    hide BeforePunctuation;
    if segs != [] {
      var rest := segs[1..];
      assert ([segs[0]] + Tightened(rest))[1..] == Tightened(rest);
      match segs[0]
      case Group(_) => FitsTightened(rest, false);
      case Char(c) => FitsTightened(rest, if c == '[' then true else if c == ']' then false else pending && InGroup(c));
    }
  }

  lemma {:induction false} CitedButEmptyWithoutBlank(segs: seq<Seg>, count: nat)
    ensures WithoutBlank(CitedButEmpty(segs, Indices(count))) == Cited(segs, Indices(count))
  {
    hide CitedGroup;
    if segs != [] {
      var valid, rest := Indices(count), segs[1..];
      CitedButEmptyWithoutBlank(rest, count);
      if segs[0].Group? {
        NoNumbers(valid);
        CitedGroupShown(segs[0].content, count, CitedButEmpty(rest, valid));
      }
      assert ([segs[0]] + CitedButEmpty(rest, valid))[1..] == CitedButEmpty(rest, valid);
      assert [] + Cited(rest, valid) == Cited(rest, valid);
      assert [] + WithoutBlank(CitedButEmpty(rest, valid)) == WithoutBlank(CitedButEmpty(rest, valid));
    }
  }

  /** A cited group is not blank. */
  lemma CitedGroupShown(g: string, count: nat, rest: seq<Seg>)
    ensures WithoutBlank(CitedGroup(g, Indices(count)) + rest) == CitedGroup(g, Indices(count)) + WithoutBlank(rest)
  {
    var nums := Keep(Numbers(g), Indices(count));
    KeptAreNumerals(Numbers(g), count);
    ListedIsTight(nums);
    if nums != [] {
      assert !IsSpace(Listed(nums)[0]);
      assert ([Group(Listed(nums))] + rest)[1..] == rest;
    } else {
      assert [] + rest == rest && [] + WithoutBlank(rest) == WithoutBlank(rest);
    }
  }

  lemma {:induction false} CitedAllTight(segs: seq<Seg>, count: nat)
    ensures AllTight(Cited(segs, Indices(count)))
  {
    if segs != [] {
      CitedAllTight(segs[1..], count);
      if segs[0].Group? {
        KeptAreNumerals(Numbers(segs[0].content), count);
        ListedIsTight(Keep(Numbers(segs[0].content), Indices(count)));
      }
    }
  }

  lemma VerifiedBySegs(body: string, count: nat)
    requires FormsNoGroup(body, count)
    ensures Verified(body, count) == Unparse(Tightened(Cited(Parse(body), Indices(count))))
  {
    hide Fits, Cited, CitedButEmpty, Tightened, WithoutBlank, AllTight;
    var segs, valid := Parse(body), Indices(count);
    CleanGroupsBySegs(body, valid);
    FitsWithEmpty(segs, valid, false);
    Reparse(CitedButEmpty(segs, valid), false);
    DropBlankBySegs(CleanGroups(body, valid));
    CitedButEmptyWithoutBlank(segs, count);
    CitedAllTight(segs, count);
    FixSpacingBySegs(Cited(segs, valid));
  }

  /** The verified body reads as the old one with each group cut down to its valid indices, or gone, and no space
      before punctuation: exactly when leaving groups out forms no new one. */
  lemma ExactIffFormsNoGroup(body: string, count: nat)
    ensures FormsNoGroup(body, count)
       <==> Parse(Verified(body, count)) == Tightened(Cited(Parse(body), Indices(count)))
  {
    var segs := Cited(Parse(body), Indices(count));
    if FormsNoGroup(body, count) {
      VerifiedBySegs(body, count);
      FitsTightened(segs, false);
      Reparse(Tightened(segs), false);
    } else if Parse(Verified(body, count)) == Tightened(segs) {
      ParseFits(Verified(body, count), false);
      FitsTightened(segs, false);
    }
  }

  // ---------------------------------------------------------------------------
  // What follows for the reader of a report
  // ---------------------------------------------------------------------------

  /** No bracket opens before the last one has closed; in particular, brackets that alternate. */
  predicate NotNested(s: string, open: bool) {
    if s == "" then true
    else if s[0] == '[' then !open && NotNested(s[1..], true)
    else if s[0] == ']' then NotNested(s[1..], false)
    else NotNested(s[1..], open)
  }

  lemma {:induction false} NotNestedAfter(x: string, t: string, open: bool)
    requires forall i | 0 <= i < |x| :: InGroup(x[i])
    requires NotNested(x + t, open)
    ensures NotNested(t, open)
  {
    if x == "" {
      assert x + t == t;
    } else {
      assert (x + t)[1..] == x[1..] + t;
      NotNestedAfter(x[1..], t, open);
    }
  }

  lemma NotNestedAfterGroup(s: string, open: bool)
    requires Opens(s) && NotNested(s, open)
    ensures !open && NotNested(s[|Inside(s)| + 2..], false)
  {
    var g := Inside(s);
    var rest := s[|g| + 2..];
    assert s[1..] == g + ("]" + rest);
    NotNestedAfter(g, "]" + rest, true);
    assert ("]" + rest)[1..] == rest;
  }

  lemma {:induction false} NotNestedFits(s: string, count: nat, open: bool, pending: bool)
    requires NotNested(s, open) && (pending ==> open && !Closes(s))
    ensures Fits(Cited(Parse(s), Indices(count)), pending)
    decreases |s|
  {
    hide CitedGroup, NotNested, Indices;
    var valid := Indices(count);
    if s != "" {
      if Opens(s) {
        var g := Inside(s);
        var rest := s[|g| + 2..];
        NotNestedAfterGroup(s, open);
        NotNestedFits(rest, count, false, false);
        ParseOpen(s);
        CitedGroupInFront(g, count, Cited(Parse(rest), valid));
      } else {
        ParseChar(s);
        var more := Cited(Parse(s[1..]), valid);
        assert Cited(Parse(s), valid) == [Char(s[0])] + more && ([Char(s[0])] + more)[1..] == more;
        NotNestedStep(s, open);
        NotNestedFits(s[1..], count, if s[0] == '[' then true else if s[0] == ']' then false else open,
                      if s[0] == '[' then true else if s[0] == ']' then false else pending && InGroup(s[0]));
      }
    }
  }

  lemma NotNestedStep(s: string, open: bool)
    requires s != "" && NotNested(s, open)
    ensures NotNested(s[1..], if s[0] == '[' then true else if s[0] == ']' then false else open)
  {
  }

  lemma CitedGroupInFront(g: string, count: nat, rest: seq<Seg>)
    requires Fits(rest, false)
    ensures Fits(CitedGroup(g, Indices(count)) + rest, false)
  {
    var nums := Keep(Numbers(g), Indices(count));
    KeptAreNumerals(Numbers(g), count);
    ListedIsTight(nums);
    if nums == [] {
      assert [] + rest == rest;
    } else {
      assert ([Group(Listed(nums))] + rest)[1..] == rest;
    }
  }

  lemma NotNestedFormsNoGroup(body: string, count: nat)
    requires NotNested(body, false)
    ensures FormsNoGroup(body, count)
  {
    NotNestedFits(body, count, false, false);
  }

  /** The number lists of the groups of a text. */
  function NumberGroups(segs: seq<Seg>): seq<seq<string>> {
    if segs == [] then []
    else (if segs[0].Group? then [Numbers(segs[0].content)] else []) + NumberGroups(segs[1..])
  }

  /** Each list cut down to its valid indices, and left out if none remains. */
  function KeepEach(groups: seq<seq<string>>, valid: set<string>): seq<seq<string>> {
    if groups == [] then []
    else
      var nums := Keep(groups[0], valid);
      (if nums == [] then [] else [nums]) + KeepEach(groups[1..], valid)
  }

  lemma NumberGroupsFirst(seg: Seg, segs: seq<Seg>)
    ensures NumberGroups([seg] + segs) == (if seg.Group? then [Numbers(seg.content)] else []) + NumberGroups(segs)
  {
    assert ([seg] + segs)[1..] == segs;
  }

  lemma KeepEachFirst(nums: seq<string>, groups: seq<seq<string>>, valid: set<string>)
    ensures KeepEach([nums] + groups, valid)
         == (if Keep(nums, valid) == [] then [] else [Keep(nums, valid)]) + KeepEach(groups, valid)
  {
    assert ([nums] + groups)[1..] == groups;
  }

  lemma {:induction false} CitedNumbers(segs: seq<Seg>, count: nat)
    ensures NumberGroups(Cited(segs, Indices(count))) == KeepEach(NumberGroups(segs), Indices(count))
  {
    hide Keep, Numbers, Listed;
    if segs != [] {
      var valid, rest := Indices(count), segs[1..];
      CitedNumbers(rest, count);
      match segs[0]
      case Char(c) =>
        NumberGroupsFirst(segs[0], Cited(rest, valid));
        assert [] + NumberGroups(rest) == NumberGroups(rest);
      case Group(g) =>
        var nums := Keep(Numbers(g), valid);
        KeepEachFirst(Numbers(g), NumberGroups(rest), valid);
        KeptAreNumerals(Numbers(g), count);
        NumbersOfListed(nums);
        if nums == [] {
          assert [] + Cited(rest, valid) == Cited(rest, valid);
          assert [] + KeepEach(NumberGroups(rest), valid) == KeepEach(NumberGroups(rest), valid);
        } else {
          NumberGroupsFirst(Group(Listed(nums)), Cited(rest, valid));
        }
    }
  }

  lemma {:induction false} TightenedNumbers(segs: seq<Seg>)
    ensures NumberGroups(Tightened(segs)) == NumberGroups(segs)
  {
    hide BeforePunctuation, Numbers;
    if segs != [] {
      TightenedNumbers(segs[1..]);
      NumberGroupsFirst(segs[0], Tightened(segs[1..]));
      assert [] + NumberGroups(segs[1..]) == NumberGroups(segs[1..]);
    }
  }

  /** The groups left are the old ones in order, each cut down to its distinct valid indices. */
  lemma GroupsAfter(body: string, count: nat)
    requires FormsNoGroup(body, count)
    ensures NumberGroups(Parse(Verified(body, count))) == KeepEach(NumberGroups(Parse(body)), Indices(count))
  {
    ExactIffFormsNoGroup(body, count);
    TightenedNumbers(Cited(Parse(body), Indices(count)));
    CitedNumbers(Parse(body), count);
  }

  // ---------------------------------------------------------------------------
  // Cleaning again
  // ---------------------------------------------------------------------------

  /** Groups as the cleaning writes them. */
  ghost predicate Canonical(segs: seq<Seg>, valid: set<string>) {
    forall k | 0 <= k < |segs| && segs[k].Group? :: CitedGroup(segs[k].content, valid) == [segs[k]]
  }

  lemma CitedGroupCanonical(g: string, count: nat)
    ensures Canonical(CitedGroup(g, Indices(count)), Indices(count))
  {
    var valid := Indices(count);
    var nums := Keep(Numbers(g), valid);
    KeptAreNumerals(Numbers(g), count);
    NumbersOfListed(nums);
    KeepIsDistinct(Numbers(g), valid);
    KeepMembers(Numbers(g), valid);
    KeepAll(nums, valid);
  }

  lemma {:induction false} CanonicalStays(segs: seq<Seg>, valid: set<string>)
    requires Canonical(segs, valid)
    ensures Cited(segs, valid) == segs
  {
    hide CitedGroup;
    if segs != [] {
      CanonicalStays(segs[1..], valid);
    }
  }

  /** Dropping spaces moves nothing in front of punctuation that was not before it already. */
  lemma {:induction false} TightenedTwice(segs: seq<Seg>)
    ensures Tightened(Tightened(segs)) == Tightened(segs)
    ensures BeforePunctuation(Tightened(segs)) <==> BeforePunctuation(segs)
  {
    if segs != [] {
      TightenedTwice(segs[1..]);
      assert ([segs[0]] + Tightened(segs[1..]))[1..] == Tightened(segs[1..]);
    }
  }

  lemma NothingToClean(valid: set<string>)
    ensures CleanGroups("", valid) == ""
  {
  }

  lemma CleanStep(s: string, valid: set<string>)
    requires s != ""
    ensures CleanGroups(s, valid) ==
              if Opens(s) && Inside(s) != ""
              then Replacement(Inside(s), valid) + CleanGroups(s[|Inside(s)| + 2..], valid)
              else [s[0]] + CleanGroups(s[1..], valid)
  {
  }

  lemma NineIsNoIndex()
    ensures Replacement("9", Indices(5)) == ""
  {
    assert Numbers("9") == ["9"] by {
      assert "9"[1..] == "" && "" + ['9'] == "9";
    }
    assert "9" !in Indices(5);
    assert ["9"][..0] == [];
  }

  lemma LastCopied(c: char, valid: set<string>)
    requires c != '['
    ensures CleanGroups([c], valid) == [c] && Parse([c]) == [Char(c)]
  {
    assert [c][1..] == "";
  }

  lemma NestedTail()
    ensures CleanGroups("7]", Indices(5)) == "7]" && Parse("7]") == [Char('7'), Char(']')]
  {
    hide Indices;
    LastCopied(']', Indices(5));
    assert "7]"[1..] == "]";
    ParseChar("7]");
    CleanStep("7]", Indices(5));
  }

  lemma InnerGroup()
    ensures CleanGroups("[9]7]", Indices(5)) == "7]" && Parse("[9]7]") == [Group("9"), Char('7'), Char(']')]
  {
    hide CleanGroups, Indices, Parse, Opens, Inside;
    NineIsNoIndex();
    NestedTail();
    GroupAtHead("9", "7]");
    assert "[" + "9" + "]" + "7]" == "[9]7]";
    ParseOpen("[9]7]");
    CleanStep("[9]7]", Indices(5));
  }

  lemma NoGroupAtTwoBrackets(s: string)
    requires |s| >= 2 && s[1] == '['
    ensures !Opens(s)
  {
    assert s[1..][0] == '[';
  }

  lemma NestedParse()
    ensures Parse("[[9]7]") == [Char('['), Group("9"), Char('7'), Char(']')]
    ensures CleanGroups("[[9]7]", Indices(5)) == "[7]"
  {
    hide CleanGroups, Indices, Parse, Opens, Inside;
    var s := "[[9]7]";
    assert s[1..] == "[9]7]";
    NoGroupAtTwoBrackets(s);
    InnerGroup();
    ParseChar(s);
    CleanStep(s, Indices(5));
  }

  lemma NestedCited()
    ensures Cited([Char('['), Group("9"), Char('7'), Char(']')], Indices(5)) == [Char('['), Char('7'), Char(']')]
  {
    NineIsNoIndex();
    hide Keep, Numbers, Indices;
    assert CitedGroup("9", Indices(5)) == [];
    var rest := [Char('7'), Char(']')];
    assert rest[1..] == [Char(']')] && rest[1..][1..] == [];
    assert Cited([Char(']')], Indices(5)) == [Char(']')];
    assert Cited(rest, Indices(5)) == rest;
    var segs := [Group("9")] + rest;
    assert segs[1..] == rest && Cited(segs, Indices(5)) == rest;
    assert ([Char('[')] + segs)[1..] == segs && [Char('[')] + segs == [Char('['), Group("9"), Char('7'), Char(']')];
  }

  lemma NestedDoesNotFit()
    ensures !Fits([Char('['), Char('7'), Char(']')], false)
  {
    assert [Char('['), Char('7'), Char(']')][1..] == [Char('7'), Char(']')];
    assert [Char('7'), Char(']')][1..] == [Char(']')];
  }

  /** Nested brackets: leaving out the inner group forms a new one, with an index that no finding has. */
  lemma {:induction false} NestedBracketsFormAGroup()
    ensures !FormsNoGroup("[[9]7]", 5) && Verified("[[9]7]", 5) == "[7]"
  {
    hide CleanGroups, Parse, Cited, Fits, Indices, FixSpacing;
    NestedParse();
    NestedCited();
    NestedDoesNotFit();
    DropBlankCopies("7]", "");
    assert "7]" + "" == "7]" && "[7]"[1..] == "7]" && DropBlank("[7]") == "[7]";
    FixSpacingCopies("[7]", "");
    NothingToFix();
    assert "[7]" + "" == "[7]";
  }

  // ---------------------------------------------------------------------------
  // The agent
  // ---------------------------------------------------------------------------

  /** The first substitution as `re.sub` runs it: match by match, from the left. */
  method SubGroups(body: string, valid: set<string>) returns (r: string)
    ensures r == CleanGroups(body, valid)
  {
    hide CleanGroups, Opens, Replacement;
    NothingToClean(valid);
    r := "";
    var i := 0;
    assert body[0..] == body;
    while i < |body|
      invariant 0 <= i <= |body| && r + CleanGroups(body[i..], valid) == CleanGroups(body, valid)
      decreases |body| - i
    {
      var s := body[i..];
      CleanStep(s, valid);
      if Opens(s) && Inside(s) != "" {
        var clean := CleanCitationMatch(Inside(s), valid);
        assert s[|Inside(s)| + 2..] == body[i + |Inside(s)| + 2..];
        r, i := r + clean, i + |Inside(s)| + 2;
      } else {
        assert s[1..] == body[i + 1..];
        r, i := r + [s[0]], i + 1;
      }
    }
    assert body[i..] == "";
  }

  /** `CitationVerifierAgent.run` on a report with `count` findings. */
  method VerifyCitations(report: ReportOutput, count: nat)
    modifies report
    ensures report.bodyMd == Verified(old(report.bodyMd), count) && report.summary == old(report.summary)
  {
    if report.bodyMd == "" {
      NothingVerified(count);
      return;
    }
    var body := SubGroups(report.bodyMd, Indices(count));
    body := DropBlank(body);
    body := FixSpacing(body);
    report.bodyMd := body;
  }

  lemma NothingVerified(count: nat)
    ensures Verified("", count) == ""
  {
    NothingToClean(Indices(count));
    NothingToFix();
  }
}

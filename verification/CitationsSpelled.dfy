/**
 The citation patterns character by character: which marks close up, what is dropped before them, what a citation
 group is and which numbers it holds.
 */
module CitationsSpelled {
  import opened Text
  import opened TextMeaning
  import opened CitationText
  import opened Citations

  predicate Mark(c: char) {
    c == '.' || c == ',' || c == ';' || c == ':' || c == '!' || c == '?'
  }

  lemma MarksAreSix(c: char)
    ensures IsPunctuation(c) <==> Mark(c)
  {
    hide IsPunctuation;
    assert IsPunctuation(c) <==> c in ['.', ',', ';', ':', '!', '?'] by { InTheList(c); }
  }

  lemma InTheList(c: char)
    ensures IsPunctuation(c) <==> c in ['.', ',', ';', ':', '!', '?']
  {
    assert ".,;:!?" == ['.', ',', ';', ':', '!', '?'];
  }

  // ---------------------------------------------------------------------------
  // Closing up before a mark
  // ---------------------------------------------------------------------------

  /** From place i there is whitespace, and nothing else, up to a mark. */
  ghost predicate WhiteUpToAMark(s: string, i: nat) {
    exists j :: i < j < |s| && Mark(s[j]) && forall k | i <= k < j :: White(s[k])
  }

  lemma WhiteUpToIff(s: string, i: nat)
    requires i < |s|
    ensures var n := SpaceRun(s[i..]);
            WhiteUpToAMark(s, i) <==> 0 < n && i + n < |s| && IsPunctuation(s[i + n])
  {
    var n := SpaceRun(s[i..]);
    forall k | i <= k < |s| ensures White(s[k]) <==> IsSpace(s[i..][k - i]) {
      SpaceIsWhite(s[k]);
    }
    forall k | i <= k < |s| ensures Mark(s[k]) <==> IsPunctuation(s[k]) {
      MarksAreSix(s[k]);
    }
    if i + n < |s| {
      assert !IsSpace(s[i..][n]);
    }
    forall k | i <= k < i + n ensures White(s[k]) {
      assert IsSpace(s[i..][k - i]);
    }
  }

  lemma FixStep(s: string, p: nat)
    requires p < |s|
    ensures var n := SpaceRun(s[p..]);
            FixSpacing(s[p..]) ==
              if 0 < n && p + n < |s| && IsPunctuation(s[p + n])
              then [s[p + n]] + FixSpacing(s[p + n + 1..]) else [s[p]] + FixSpacing(s[p + 1..])
  {
    var n := SpaceRun(s[p..]);
    assert s[p..][1..] == s[p + 1..];
    if 0 < n && p + n < |s| {
      assert s[p..][n] == s[p + n] && s[p..][n + 1..] == s[p + n + 1..];
    }
  }

  /** The third substitution keeps, in order, exactly the characters that are not part of whitespace directly before
      one of the six marks. */
  lemma {:induction false} FixSpacingKeeps(s: string, p: nat) returns (places: seq<nat>)
    requires p <= |s|
    ensures |places| == |FixSpacing(s[p..])|
    ensures forall a | 0 <= a < |places| :: p <= places[a] < |s| && FixSpacing(s[p..])[a] == s[places[a]]
    ensures forall a, b | 0 <= a < b < |places| :: places[a] < places[b]
    ensures forall i | p <= i < |s| :: i in places <==> !WhiteUpToAMark(s, i)
    decreases |s| - p
  {
    hide FixSpacing, IsPunctuation, WhiteUpToAMark;
    if p == |s| {
      NothingToFix();
      places := [];
    } else {
      FixStep(s, p);
      WhiteUpToIff(s, p);
      var n := SpaceRun(s[p..]);
      if 0 < n && p + n < |s| && IsPunctuation(s[p + n]) {
        var rest := FixSpacingKeeps(s, p + n + 1);
        places := [p + n] + rest;
        AllUpToAMark(s, p, n);
      } else {
        var rest := FixSpacingKeeps(s, p + 1);
        places := [p] + rest;
      }
    }
  }

  lemma AllUpToAMark(s: string, p: nat, n: nat)
    requires 0 < n && p + n < |s| && IsPunctuation(s[p + n]) && n == SpaceRun(s[p..])
    ensures forall i | p <= i < p + n :: WhiteUpToAMark(s, i)
    ensures !WhiteUpToAMark(s, p + n)
  {
    MarksAreSix(s[p + n]);
    forall k | p <= k < p + n ensures White(s[k]) {
      assert IsSpace(s[p..][k - p]);
      SpaceIsWhite(s[k]);
    }
  }

  /** What comes first after the third substitution. */
  lemma FirstAfter(s: string)
    requires s != ""
    ensures FixSpacing(s) != ""
    ensures IsSpace(s[0]) && SpaceRun(s) < |s| && IsPunctuation(s[SpaceRun(s)]) ==>
              FixSpacing(s)[0] == s[SpaceRun(s)]
    ensures !(IsSpace(s[0]) && SpaceRun(s) < |s| && IsPunctuation(s[SpaceRun(s)])) ==> FixSpacing(s)[0] == s[0]
  {
  }

  ghost predicate NoGapBeforeMarks(s: string) {
    forall i | 0 <= i && i + 1 < |s| :: !(White(s[i]) && Mark(s[i + 1]))
  }

  lemma {:induction false} ClosesUp(s: string)
    ensures NoGapBeforeMarks(FixSpacing(s))
    decreases |s|
  {
    if s != "" {
      var n, r := SpaceRun(s), FixSpacing(s);
      if 0 < n < |s| && IsPunctuation(s[n]) {
        ClosesUp(s[n + 1..]);
        MarksAreSix(s[n]);
        GapsLater(s[n], FixSpacing(s[n + 1..]));
      } else {
        ClosesUp(s[1..]);
        SpaceIsWhite(s[0]);
        if s[1..] != "" {
          FirstAfter(s[1..]);
          MarksAreSix(FixSpacing(s[1..])[0]);
          if IsSpace(s[0]) {
            assert SpaceRun(s) == 1 + SpaceRun(s[1..]);
            assert n < |s| ==> s[1..][n - 1] == s[n];
          }
        }
        GapsLater(s[0], FixSpacing(s[1..]));
      }
    }
  }

  lemma GapsLater(c: char, r: string)
    requires NoGapBeforeMarks(r) && (r != "" ==> !(White(c) && Mark(r[0])))
    ensures NoGapBeforeMarks([c] + r)
  {
    var s := [c] + r;
    forall i | 0 <= i && i + 1 < |s| ensures !(White(s[i]) && Mark(s[i + 1])) {
      assert s[i + 1] == r[i];
      assert i > 0 ==> s[i] == r[i - 1];
    }
  }

  /** In a verified body no whitespace stands directly before a full stop, a comma, a semicolon, a colon, an
      exclamation mark or a question mark. */
  lemma VerifiedClosesUp(body: string, count: nat)
    ensures var r := Verified(body, count);
            forall i | 0 <= i && i + 1 < |r| :: !(White(r[i]) && r[i + 1] in {'.', ',', ';', ':', '!', '?'})
  {
    hide FixSpacing, DropBlank, CleanGroups;
    ClosesUp(DropBlank(CleanGroups(body, Indices(count))));
  }

  // ---------------------------------------------------------------------------
  // Groups
  // ---------------------------------------------------------------------------

  /** Digits, commas and whitespace only. */
  ghost predicate OfAGroup(g: string) {
    forall i | 0 <= i < |g| :: g[i] in "0123456789" || g[i] == ',' || White(g[i])
  }

  lemma GroupCharacters(g: string)
    ensures OfAGroup(g) <==> forall i | 0 <= i < |g| :: InGroup(g[i])
  {
    forall i | 0 <= i < |g| ensures InGroup(g[i]) <==> g[i] in "0123456789" || g[i] == ',' || White(g[i]) {
      DigitIsOneOfTen(g[i]);
      SpaceIsWhite(g[i]);
    }
  }

  /** A citation group stands here exactly if the text begins with such characters in brackets, which are then its
      content. */
  lemma {:induction false} OpensIff(s: string, g: string)
    ensures Opens(s) && Inside(s) == g <==> OfAGroup(g) && "[" + g + "]" <= s
  {
    GroupCharacters(g);
    if Opens(s) && Inside(s) == g {
      WholeGroup(s);
      assert "[" + g + "]" == s[..|g| + 2];
    }
    if OfAGroup(g) && "[" + g + "]" <= s {
      var t := s[|g| + 2..];
      assert s == "[" + g + "]" + t;
      GroupAtHead(g, t);
    }
  }

  /** Place k lies in one of the runs. */
  ghost predicate Covered(starts: seq<nat>, ends: seq<nat>, k: nat)
    requires |starts| == |ends|
  {
    exists a :: 0 <= a < |starts| && starts[a] <= k < ends[a]
  }

  /** `nums` are the runs of digits from place q on, from left to right. */
  ghost predicate DigitRuns(s: string, q: nat, nums: seq<string>, starts: seq<nat>, ends: seq<nat>) {
    && |starts| == |ends| == |nums|
    && (forall a | 0 <= a < |nums| ::
          q <= starts[a] && MaximalRun(IsDigit, s, starts[a], ends[a]) && nums[a] == s[starts[a]..ends[a]])
    && (forall a, b | 0 <= a < b < |nums| :: ends[a] <= starts[b])
    && (forall k | q <= k < |s| && IsDigit(s[k]) :: Covered(starts, ends, k))
  }

  lemma DigitRunsEarlier(s: string, q: nat, p: nat, nums: seq<string>, starts: seq<nat>, ends: seq<nat>)
    requires q <= p && DigitRuns(s, p, nums, starts, ends) && forall k | q <= k < p && k < |s| :: !IsDigit(s[k])
    ensures DigitRuns(s, q, nums, starts, ends)
  {
    hide Covered, MaximalRun;
  }

  lemma FirstRun(s: string, q: nat, p: nat, nums: seq<string>, starts: seq<nat>, ends: seq<nat>)
    requires DigitRuns(s, p, nums, starts, ends) && MaximalRun(IsDigit, s, q, p)
    ensures DigitRuns(s, q, [s[q..p]] + nums, [q] + starts, [p] + ends)
  {
    hide MaximalRun;
    assert q < p by { RunLength(s, q, p); }
    forall k | q <= k < |s| && IsDigit(s[k]) ensures Covered([q] + starts, [p] + ends, k) {
      if k < p {
        assert ([q] + starts)[0] <= k < ([p] + ends)[0];
      } else {
        var a :| 0 <= a < |starts| && starts[a] <= k < ends[a];
        assert ([q] + starts)[a + 1] == starts[a] && ([p] + ends)[a + 1] == ends[a];
      }
    }
  }

  lemma RunLength(s: string, q: nat, p: nat)
    requires MaximalRun(IsDigit, s, q, p)
    ensures q < p <= |s|
  {
  }

  lemma {:induction false} NumbersFrom(s: string, q: nat, p: nat) returns (starts: seq<nat>, ends: seq<nat>)
    requires OpenRun(IsDigit, s, q, p)
    ensures DigitRuns(s, q, NumbersAfter(s[q..p], s[p..]), starts, ends)
    decreases |s| - p
  {
    hide DigitRuns, Covered;
    if p < |s| {
      RunGoesOn(s, q, p);
    }
    if p < |s| && IsDigit(s[p]) {
      starts, ends := NumbersFrom(s, q, p + 1);
    } else {
      starts, ends := [], [];
      var nums: seq<string> := [];
      NoRuns(s, p);
      if p < |s| {
        starts, ends := NumbersFrom(s, p + 1, p + 1);
        nums := NumbersAfter("", s[p + 1..]);
        DigitRunsEarlier(s, p, p + 1, nums, starts, ends);
      }
      if q < p {
        FirstRun(s, q, p, nums, starts, ends);
        starts, ends := [q] + starts, [p] + ends;
      } else {
        assert [] + nums == nums;
      }
    }
  }

  lemma NoRuns(s: string, p: nat)
    ensures p >= |s| ==> DigitRuns(s, p, [], [], [])
  {
  }

  /** The numbers of a group are its runs of digits, all of them and from left to right. */
  lemma NumbersAreTheDigitRuns(s: string) returns (starts: seq<nat>, ends: seq<nat>)
    ensures |starts| == |ends| == |Numbers(s)|
    ensures forall a | 0 <= a < |starts| ::
              MaximalRun(IsDigit, s, starts[a], ends[a]) && Numbers(s)[a] == s[starts[a]..ends[a]]
    ensures forall a, b | 0 <= a < b < |starts| :: ends[a] <= starts[b]
    ensures forall k | 0 <= k < |s| && IsDigit(s[k]) :: Covered(starts, ends, k)
  {
    assert s[0..0] == "" && s[0..] == s;
    starts, ends := NumbersFrom(s, 0, 0);
  }

  /** A list is written with a comma and a space between one number and the next. */
  lemma {:induction false} ListedAppends(nums: seq<string>, x: string)
    ensures Listed([x]) == x
    ensures nums != [] ==> Listed(nums + [x]) == Listed(nums) + ", " + x
  {
    if |nums| == 1 {
      assert (nums + [x])[1..] == [x];
    } else if |nums| > 1 {
      assert (nums + [x])[1..] == nums[1..] + [x];
      ListedAppends(nums[1..], x);
      assert nums[0] + ", " + (Listed(nums[1..]) + ", " + x) == Listed(nums) + ", " + x;
    }
  }
}

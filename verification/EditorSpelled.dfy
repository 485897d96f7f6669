/**
 The editor's guard and its deletions, place by place: when a rewrite is taken, what a filler match is, which
 characters go, and when a reply holds thoughts.
 */
module EditorSpelled {
  import opened Text
  import opened TextMeaning
  import opened Editor

  // ---------------------------------------------------------------------------
  // The guard
  // ---------------------------------------------------------------------------

  /** A word begins here: a character that is not whitespace, after whitespace or at the beginning. */
  predicate WordStart(s: string, i: nat)
    requires i < |s|
  {
    !White(s[i]) && (i == 0 || White(s[i - 1]))
  }

  function WordStarts(s: string, p: nat): set<nat> {
    set i: nat | p <= i < |s| && WordStart(s, i)
  }

  lemma WordStartsStep(s: string, p: nat)
    ensures p >= |s| ==> WordStarts(s, p) == {}
    ensures p < |s| ==> |WordStarts(s, p)| == |WordStarts(s, p + 1)| + if WordStart(s, p) then 1 else 0
  {
    hide White;
    if p < |s| {
      assert WordStarts(s, p) == WordStarts(s, p + 1) + if WordStart(s, p) then {p} else {};
    }
  }

  lemma {:induction false} WordCountFrom(s: string, p: nat)
    requires p <= |s|
    ensures WordCount(p > 0 && !White(s[p - 1]), s[p..]) == |WordStarts(s, p)|
    decreases |s| - p
  {
    hide White, IsSpace, WordStarts;
    WordStartsStep(s, p);
    if p < |s| {
      WordCountFrom(s, p + 1);
      SpaceIsWhite(s[p]);
      assert s[p..][0] == s[p] && s[p..][1..] == s[p + 1..];
    }
  }

  /** A rewrite is taken exactly if the draft has thirty words or more, the model answers, the edited answer has
      fifteen or more, and every tag `[1]`, `[2]`, ... of the draft occurs in it. */
  lemma TakenIff(draft: string, reply: Reply)
    ensures Taken(draft, reply)
       <==> && |WordStarts(draft, 0)| >= 30 && reply.Content?
            && |WordStarts(Edited(reply.text), 0)| >= 15
            && forall t | IsTag(t) && Occurs(t, draft) :: Occurs(t, Edited(reply.text))
  {
    hide IsTag, Occurs, Tags, WordStarts, WordCount;
    assert draft[0..] == draft;
    WordCountFrom(draft, 0);
    TagsOccur("1", draft);
    assert !IsTag("1") by { TooShortForATag(); }
    if reply.Content? {
      var edited := Edited(reply.text);
      assert edited[0..] == edited;
      WordCountFrom(edited, 0);
      forall t ensures (t in Tags(draft) <==> IsTag(t) && Occurs(t, draft))
                    && (t in Tags(edited) <==> IsTag(t) && Occurs(t, edited)) {
        TagsOccur(t, draft);
        TagsOccur(t, edited);
      }
      assert forall t :: IsTag(t) && Occurs(t, draft) <==> t in Tags(draft);
    }
  }

  lemma TooShortForATag()
    ensures !IsTag("1")
  {
  }

  // ---------------------------------------------------------------------------
  // Deletions
  // ---------------------------------------------------------------------------

  /** The five fillers in the order of their deletions; a comma goes along with the landscape only. */
  lemma FiveFillers()
    ensures |FILLERS| == 5
    ensures FILLERS[0].spellings == ["it is important to note that"]
    ensures FILLERS[1].spellings
         == ["in today's rapidly evolving landscape", "in todays rapidly evolving landscape"]
    ensures FILLERS[2].spellings == ["it is worth mentioning that"]
    ensures FILLERS[3].spellings == ["this highlights the importance of"]
    ensures FILLERS[4].spellings == ["it should be noted that"]
    ensures forall k | 0 <= k < 5 :: FILLERS[k].comma <==> k == 1
  {
  }

  /** The first n characters are a spelling of the filler in any case, a comma if one may and does follow, and all the
      whitespace there is. */
  ghost predicate MatchOf(f: Filler, s: string, n: nat) {
    exists k | 0 <= k < |f.spellings| :: MatchOfSpelling(f, f.spellings[k], s, n)
  }

  ghost predicate MatchOfSpelling(f: Filler, p: string, s: string, n: nat) {
    && p != "" && |p| <= |s| && Lower(s[..|p|]) == p
    && var m := if f.comma && |p| < |s| && s[|p|] == ',' then |p| + 1 else |p|;
       && m <= n <= |s| && (forall i | m <= i < n :: White(s[i])) && (n < |s| ==> !White(s[n]))
  }

  lemma RunOfWhite(s: string, m: nat)
    requires m <= |s|
    ensures var n := m + SpaceRun(s[m..]);
            n <= |s| && (forall i | m <= i < n :: White(s[i])) && (n < |s| ==> !White(s[n]))
  {
    hide White;
    var n := m + SpaceRun(s[m..]);
    forall i | m <= i < |s| ensures IsSpace(s[m..][i - m]) <==> White(s[i]) {
      SpaceIsWhite(s[i]);
    }
    forall i | m <= i < n ensures White(s[i]) {
      assert IsSpace(s[m..][i - m]);
    }
    if n < |s| {
      assert !IsSpace(s[m..][n - m]);
    }
  }

  /** What a deletion takes is a match. */
  lemma MatchedIsAMatch(f: Filler, s: string)
    requires Matched(f, s) > 0
    ensures MatchOf(f, s, Matched(f, s))
  {
    hide Lower, SpaceRun, White;
    var n := Spelled(f.spellings, s);
    var k :| 0 <= k < |f.spellings| && n == |f.spellings[k]| && Lower(s[..n]) == f.spellings[k];
    RunOfWhite(s, if f.comma && n < |s| && s[n] == ',' then n + 1 else n);
    assert MatchOfSpelling(f, f.spellings[k], s, Matched(f, s));
  }

  lemma {:induction false} SpelledOut(spellings: seq<string>, s: string, k: nat)
    requires k < |spellings| && spellings[k] != ""
    requires |spellings[k]| <= |s| && Lower(s[..|spellings[k]|]) == spellings[k]
    requires forall i | 0 <= i < |spellings| :: spellings[i] != ""
    ensures Spelled(spellings, s) > 0
  {
    if k > 0 {
      SpelledOut(spellings[1..], s, k - 1);
    }
  }

  /** Where there is a match something is taken. */
  lemma MatchIsTaken(f: Filler, s: string, n: nat)
    requires (forall i | 0 <= i < |f.spellings| :: f.spellings[i] != "") && MatchOf(f, s, n)
    ensures Matched(f, s) > 0
  {
    var k :| 0 <= k < |f.spellings| && MatchOfSpelling(f, f.spellings[k], s, n);
    SpelledOut(f.spellings, s, k);
  }

  /** A match begins here, at a word boundary. */
  predicate Begins(f: Filler, s: string, i: nat)
    requires i < |s|
  {
    (i > 0 && IsWord(s[i - 1])) != IsWord(s[i]) && Matched(f, s[i..]) > 0
  }

  /** Place i lies in a match whose beginning is gone. */
  ghost predicate Gone(f: Filler, s: string, kept: seq<nat>, i: nat) {
    exists a: nat | a < |s| :: a !in kept && Begins(f, s, a) && a <= i < a + Matched(f, s[a..])
  }

  /** What is kept from place p on: where no match begins; and nothing else goes but matches. */
  ghost predicate Keeps(f: Filler, s: string, p: nat, kept: seq<nat>) {
    && (forall a | 0 <= a < |kept| :: p <= kept[a] < |s|)
    && (forall a, b | 0 <= a < b < |kept| :: kept[a] < kept[b])
    && (forall i | p <= i < |s| && i in kept :: !Begins(f, s, i))
    && (forall i | p <= i < |s| && i !in kept :: Gone(f, s, kept, i))
  }

  ghost predicate Reads(s: string, kept: seq<nat>, r: string) {
    |r| == |kept| && forall a | 0 <= a < |kept| :: kept[a] < |s| && r[a] == s[kept[a]]
  }

  lemma KeepsOneMore(f: Filler, s: string, p: nat, kept: seq<nat>, r: string)
    requires p < |s| && !Begins(f, s, p) && Keeps(f, s, p + 1, kept) && Reads(s, kept, r)
    ensures Keeps(f, s, p, [p] + kept) && Reads(s, [p] + kept, [s[p]] + r)
  {
    hide Begins, Matched;
    var more := [p] + kept;
    forall i | p <= i < |s| && i !in more ensures Gone(f, s, more, i) {
      assert i !in kept;
      var a: nat :| a < |s| && a !in kept && Begins(f, s, a) && a <= i < a + Matched(f, s[a..]);
      assert a != p && a !in more;
    }
  }

  lemma KeepsBehind(f: Filler, s: string, p: nat, n: nat, kept: seq<nat>)
    requires p < |s| && Begins(f, s, p) && n == Matched(f, s[p..]) && Keeps(f, s, p + n, kept)
    ensures Keeps(f, s, p, kept)
  {
    hide Begins, Matched;
    forall i | p <= i < |s| && i !in kept ensures Gone(f, s, kept, i) {
      if i < p + n {
        assert p !in kept;
      }
    }
  }

  lemma CutIff(f: Filler, s: string, p: nat)
    requires p < |s|
    ensures var n := Cut(f, p > 0 && IsWord(s[p - 1]), s[p..]);
            (n > 0 <==> Begins(f, s, p)) && (n > 0 ==> n == Matched(f, s[p..])) && p + n <= |s|
  {
    hide Matched, IsWord;
    assert s[p..][0] == s[p];
  }

  lemma NothingKept(f: Filler, s: string, inWord: bool)
    ensures Keeps(f, s, |s|, []) && Reads(s, [], Delete(f, inWord, s[|s|..]))
  {
  }

  lemma {:induction false} DeletesFrom(f: Filler, s: string, p: nat) returns (kept: seq<nat>)
    requires p <= |s|
    ensures Keeps(f, s, p, kept) && Reads(s, kept, Delete(f, p > 0 && IsWord(s[p - 1]), s[p..]))
    decreases |s| - p
  {
    hide Keeps, Reads, Matched, Delete, Cut, Begins, IsWord;
    var inWord := p > 0 && IsWord(s[p - 1]);
    if p == |s| {
      NothingKept(f, s, inWord);
      kept := [];
    } else {
      var n := Cut(f, inWord, s[p..]);
      CutIff(f, s, p);
      DeleteStep(f, inWord, s[p..], n);
      assert s[p..][0] == s[p] && s[p..][1..] == s[p + 1..];
      if n > 0 {
        assert s[p..][n - 1] == s[p + n - 1] && s[p..][n..] == s[p + n..];
        kept := DeletesFrom(f, s, p + n);
        KeepsBehind(f, s, p, n, kept);
      } else {
        kept := DeletesFrom(f, s, p + 1);
        KeepsOneMore(f, s, p, kept, Delete(f, IsWord(s[p]), s[p + 1..]));
        kept := [p] + kept;
      }
    }
  }

  /** A deletion takes out, from left to right, the matches that begin at a word boundary of the text as it was, and
      nothing else; what is left stands in its old order. */
  lemma DeletesTheMatches(f: Filler, s: string) returns (kept: seq<nat>)
    ensures Keeps(f, s, 0, kept) && Reads(s, kept, Delete(f, false, s))
  {
    assert s[0..] == s;
    kept := DeletesFrom(f, s, 0);
  }

  // ---------------------------------------------------------------------------
  // Thoughts
  // ---------------------------------------------------------------------------

  /** A `<think>` begins here, in any case, and a `</think>` comes somewhere after it. */
  predicate ThinksAt(s: string, i: nat) {
    i <= |s| && THINK <= Lower(s[i..]) && Occurs(END, Lower(s[i..])[|THINK|..])
  }

  ghost predicate HoldsThoughts(s: string) {
    exists i :: ThinksAt(s, i)
  }

  lemma {:induction false} FindIff(part: string, s: string)
    ensures Find(part, s) >= 0 <==> Occurs(part, s)
  {
    if s != "" && !(part <= s) {
      FindIff(part, s[1..]);
    }
  }

  lemma LowerTail(s: string, n: nat)
    requires n <= |s|
    ensures Lower(s[n..]) == Lower(s)[n..]
  {
  }

  /** Where the first block of thoughts ends, if the text begins with one. */
  function BlockEnd(s: string): int {
    if THINK <= Lower(s) then Find(END, Lower(s[|THINK|..])) else -1
  }

  lemma BlockIff(s: string)
    ensures BlockEnd(s) >= 0 <==> ThinksAt(s, 0)
  {
    hide THINK, END, Occurs;
    assert s[0..] == s;
    if THINK <= Lower(s) {
      FindIff(END, Lower(s[|THINK|..]));
      LowerTail(s, |THINK|);
    }
  }

  lemma ThinkUnfolded(s: string)
    requires s != ""
    ensures var i := BlockEnd(s);
            && (i >= 0 ==>
                  && 0 < |THINK| + i + |END| <= |s|
                  && WithoutThinking(s) == WithoutThinking(s[|THINK| + i + |END|..]))
            && (i < 0 ==> WithoutThinking(s) == [s[0]] + WithoutThinking(s[1..]))
  {
    hide Lower, Find;
  }

  lemma ThinkStep(s: string)
    requires s != ""
    ensures ThinksAt(s, 0) ==> |WithoutThinking(s)| < |s|
    ensures !ThinksAt(s, 0) ==> WithoutThinking(s) == [s[0]] + WithoutThinking(s[1..])
  {
    hide *;
    BlockIff(s);
    ThinkUnfolded(s);
    var i := BlockEnd(s);
    if i >= 0 {
      NeverLonger(s[|THINK| + i + |END|..]);
    }
  }

  lemma NothingToRemove()
    ensures WithoutThinking("") == ""
  {
  }

  lemma {:induction false} NeverLonger(s: string)
    ensures |WithoutThinking(s)| <= |s|
    decreases |s|
  {
    hide *;
    if s == "" {
      NothingToRemove();
    } else {
      ThinkUnfolded(s);
      var i := BlockEnd(s);
      NeverLonger(if i >= 0 then s[|THINK| + i + |END|..] else s[1..]);
    }
  }

  lemma LaterThought(s: string, i: nat)
    requires s != "" && 0 < i <= |s|
    ensures ThinksAt(s, i) <==> ThinksAt(s[1..], i - 1)
  {
    assert s[1..][i - 1..] == s[i..];
  }

  /** A reply is left as it is exactly if it holds no closed block of thoughts. */
  lemma {:induction false} UnchangedIffNoThoughts(s: string)
    ensures WithoutThinking(s) == s <==> !HoldsThoughts(s)
    decreases |s|
  {
    hide ThinksAt, WithoutThinking;
    if s == "" {
      NothingToRemove();
      NoThoughtInNothing();
    } else {
      ThinkStep(s);
      UnchangedIffNoThoughts(s[1..]);
      NeverLonger(s[1..]);
      forall i: nat | ThinksAt(s, i) ensures ThinksAt(s, 0) || HoldsThoughts(s[1..]) {
        if i > 0 {
          WithinText(s, i);
          LaterThought(s, i);
        }
      }
      if i: nat :| ThinksAt(s[1..], i) {
        WithinText(s[1..], i);
        LaterThought(s, i + 1);
      }
    }
  }

  lemma WithinText(s: string, i: nat)
    requires ThinksAt(s, i)
    ensures i <= |s|
  {
  }

  lemma NoThoughtInNothing()
    ensures !HoldsThoughts("")
  {
  }

  lemma NotAThink(s: string, i: nat)
    requires i < |s| && i < |THINK| && LowerChar(s[i]) != THINK[i]
    ensures WithoutThinking(s) == [s[0]] + WithoutThinking(s[1..])
  {
    assert Lower(s)[i] != THINK[i];
  }

  /** No `<` is followed by a `t`. */
  predicate NoTagOpens(s: string) {
    forall i | 0 <= i && i + 1 < |s| :: s[i] != '<' || LowerChar(s[i + 1]) != 't'
  }

  lemma {:induction false} NothingThought(s: string)
    requires NoTagOpens(s)
    ensures WithoutThinking(s) == s
  {
    if s != "" {
      NothingThought(s[1..]);
      if s[0] == '<' && |s| > 1 {
        NotAThink(s, 1);
      } else {
        hide Lower;
        assert THINK[0] == '<' && |THINK| == 7;
        if s[0] != '<' {
          FirstIsNoThink(s);
        }
      }
      assert s == [s[0]] + s[1..];
    }
  }

  lemma FirstIsNoThink(s: string)
    requires s != "" && s[0] != '<'
    ensures WithoutThinking(s) == [s[0]] + WithoutThinking(s[1..])
  {
    NotAThink(s, 0);
  }

  lemma EndAtHead(rest: string)
    ensures Find(END, Lower(END + rest)) == 0
  {
    TagsAreLower();
    LowerOfBoth(END, rest);
  }

  lemma BlockGoes(rest: string)
    ensures WithoutThinking(THINK + END + rest) == WithoutThinking(rest)
  {
    var s := THINK + END + rest;
    TagsAreLower();
    LowerOfBoth(THINK, END + rest);
    EndAtHead(rest);
    assert s == THINK + (END + rest) && |THINK| > 0;
    ThinkUnfolded(s);
    hide THINK, END, WithoutThinking, Lower, Find;
    assert s[|THINK|..] == END + rest && THINK <= Lower(s);
    assert s[|THINK| + 0 + |END|..] == rest;
  }

  lemma TagsAreLower()
    ensures Lower(THINK) == THINK && Lower(END) == END
  {
    hide Lower;
    assert forall i | 0 <= i < |THINK| :: LowerChar(THINK[i]) == THINK[i];
    assert forall i | 0 <= i < |END| :: LowerChar(END[i]) == END[i];
  }

  lemma LowerOfBoth(a: string, b: string)
    ensures Lower(a + b) == Lower(a) + Lower(b)
  {
    hide Lower;
  }

  lemma CopiedUpTo(t: string)
    requires t != "" && t[0] == '<'
    ensures WithoutThinking("<thi" + t) == "<thi" + WithoutThinking(t)
  {
    hide WithoutThinking, Lower;
    var s := "<thi" + t;
    assert s[4] == '<' && THINK[4] == 'n';
    NotAThink(s, 4);
    assert s[1..] == "thi" + t && s[1..][1..] == "hi" + t && s[1..][1..][1..] == "i" + t;
    assert s[1..][1..][1..][1..] == t;
    FirstIsNoThink(s[1..]);
    FirstIsNoThink(s[1..][1..]);
    FirstIsNoThink(s[1..][1..][1..]);
  }

  /** Taking a block out can close another around it: a reply without any left is not what the removal promises. */
  lemma {:induction false} RemovalMakesABlock()
    ensures WithoutThinking("<thi" + (THINK + END + "nk></think>")) == THINK + END
    ensures HoldsThoughts(THINK + END)
  {
    hide WithoutThinking, Lower, HoldsThoughts;
    var rest := "nk></think>";
    BlockGoes(rest);
    NothingThought(rest);
    CopiedUpTo(THINK + END + rest);
    assert "<thi" + rest == THINK + END;
    BlockGoes("");
    assert THINK + END + "" == THINK + END;
    NothingThought("");
    UnchangedIffNoThoughts(THINK + END);
  }

  // ---------------------------------------------------------------------------
  // The new summary
  // ---------------------------------------------------------------------------

  lemma {:induction false} HashesOff(s: string) returns (i: nat)
    ensures i <= |s| && StripHashes(s) == s[i..]
    ensures (forall k | 0 <= k < i :: s[k] == '#') && (i < |s| ==> s[i] != '#')
  {
    i := 0;
    if s != "" && s[0] == '#' {
      i := HashesOff(s[1..]);
      assert forall k | 0 < k < i + 1 :: s[k] == s[1..][k - 1];
      i := i + 1;
    }
  }

  lemma FirstParagraph(text: string)
    ensures Split(text)[0] == text[..FirstBreak(text)]
  {
    hide FirstBreak, Split;
    SplitStep(text);
    assert text[..|text|] == text;
  }

  /** The headline is the text up to the first blank line without the hashes before it and the whitespace around. */
  lemma HeadlineIs(text: string) returns (h: nat, i: nat, j: nat)
    ensures var first := text[..FirstBreak(text)];
            && h <= i <= j <= |first| && Headline(text) == first[i..j]
            && (forall k | 0 <= k < h :: first[k] == '#') && (h < |first| ==> first[h] != '#')
            && (forall k | h <= k < |first| && !(i <= k < j) :: White(first[k]))
            && (i < j ==> !White(first[i]) && !White(first[j - 1]))
  {
    hide White, FirstBreak, Split, Strip, StripHashes;
    var first := text[..FirstBreak(text)];
    FirstParagraph(text);
    h := HashesOff(first);
    var rest := first[h..];
    var a, b := StripsWhitespace(rest);
    i, j := h + a, h + b;
    assert rest[a..b] == first[i..j];
    forall k | h <= k < |first| && !(i <= k < j) ensures White(first[k]) {
      assert first[k] == rest[k - h];
    }
    if i < j {
      assert first[i] == rest[a] && first[j - 1] == rest[b - 1];
    }
  }
}

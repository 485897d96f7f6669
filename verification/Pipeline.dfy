/**
 The last two agents in a row (core/research/engine.py): the editor gets the body
 that the citation verifier has cleaned, and nothing cleans it again.
 */
module Pipeline {
  import opened Text
  import opened CitationText
  import opened Citations
  import opened CitationsExact
  import opened Editor
  import opened Report

  /** Every tag of the text names a finding. */
  ghost predicate TagsAreIndices(s: string, count: nat) {
    forall d | Digits(d) && "[" + d + "]" in Tags(s) :: d in Indices(count)
  }

  // ---------------------------------------------------------------------------
  // Tags and groups
  // ---------------------------------------------------------------------------

  lemma TagInGroupHead(d: string, s: string)
    requires Digits(d) && Opens(s)
    ensures "[" + d + "]" <= s <==> Inside(s) == d
  {
    WholeGroup(s);
    if "[" + d + "]" <= s {
      var t := s[|d| + 2..];
      assert s == "[" + d + "]" + t;
      GroupAtHead(d, t);
    }
  }

  lemma {:induction false} OccursAfterPrefix(t: string, x: string, s: string)
    requires t != "" && t[0] == '[' && forall i | 0 <= i < |x| :: x[i] != '['
    ensures Occurs(t, x + s) <==> Occurs(t, s)
  {
    if x == "" {
      assert x + s == s;
    } else {
      OccursAfterPrefix(t, x[1..], s);
      assert (x + s)[1..] == x[1..] + s && (x + s)[0] == x[0];
    }
  }

  /** A tag is a group that holds one number only. */
  lemma {:induction false} TagIsGroup(d: string, s: string)
    requires Digits(d)
    ensures Occurs("[" + d + "]", s) <==> d in Contents(Parse(s))
    decreases |s|
  {
    hide Opens, Inside, Digits;
    var t := "[" + d + "]";
    if s != "" {
      if Opens(s) {
        var g := Inside(s);
        var rest := s[|g| + 2..];
        TagIsGroup(d, rest);
        TagInGroupHead(d, s);
        assert s[1..] == g + "]" + rest by { WholeGroup(s); }
        OccursAfterPrefix(t, g + "]", rest);
        ParseOpen(s);
        assert ([Group(g)] + Parse(rest))[1..] == Parse(rest);
      } else {
        TagIsGroup(d, s[1..]);
        if t <= s {
          var u := s[|t|..];
          assert s == "[" + d + "]" + u;
          DigitsInGroup(d);
          GroupAtHead(d, u);
        }
        ParseChar(s);
        assert ([Char(s[0])] + Parse(s[1..]))[1..] == Parse(s[1..]);
        assert [] + Contents(Parse(s[1..])) == Contents(Parse(s[1..]));
      }
    }
  }

  lemma DigitsInGroup(d: string)
    requires Digits(d)
    ensures forall i | 0 <= i < |d| :: InGroup(d[i])
  {
  }

  lemma NumberAlone(d: string)
    requires Digits(d)
    ensures Numbers(d) == [d]
  {
    assert Numerals([d]) && Listed([d]) == d;
    NumbersOfListed([d]);
  }

  /** The tags of a verified body name findings exactly if the new groups that are tags do. */
  lemma VerifiedTagsIff(body: string, count: nat)
    ensures TagsAreIndices(Verified(body, count), count)
       <==> forall g | g in NewGroups(body, count) && Digits(FixSpacing(g)) :: FixSpacing(g) in Indices(count)
  {
    hide Verified, NewGroups, Contents, Parse, Dropped, CitedButEmpty, Tidy, FixSpacing, Digits, IsBlank, Tags,
      Occurs, Indices;
    var v, all, news := Verified(body, count), Contents(Dropped(body, count)), NewGroups(body, count);
    VerifiedContents(body, count);
    TidyMembers(all);
    forall d | Digits(d) ensures "[" + d + "]" in Tags(v) <==> d in Tidy(all) {
      DigitsHaveNoBracket(d);
      TagsOccur("[" + d + "]", v);
      TagIsGroup(d, v);
    }
    forall g | g in all && g !in news && Digits(FixSpacing(g)) ensures FixSpacing(g) in Indices(count) {
      KeptContents(Parse(body), count, g);
      NumberAlone(g);
      assert g in Numbers(g);
    }
    if TagsAreIndices(v, count) {
      forall g | g in news && Digits(FixSpacing(g)) ensures FixSpacing(g) in Indices(count) {
        assert g in all;
        assert FixSpacing(g) in Tidy(all);
      }
    }
    if forall g | g in news && Digits(FixSpacing(g)) :: FixSpacing(g) in Indices(count) {
      forall d | Digits(d) && "[" + d + "]" in Tags(v) ensures d in Indices(count) {
        var k :| 0 <= k < |Tidy(all)| && Tidy(all)[k] == d;
        assert all[k] in all && FixSpacing(all[k]) == d;
      }
    }
  }

  // ---------------------------------------------------------------------------
  // The final body
  // ---------------------------------------------------------------------------

  /** The body after both agents. */
  function Finished(body: string, count: nat, reply: Reply): string {
    var draft := Verified(body, count);
    if Taken(draft, reply) then Edited(reply.text) else DeleteAll(FILLERS, draft)
  }

  /** `citation_verifier_agent.run`, then `editor.run`. */
  method Finish(report: ReportOutput, count: nat, reply: Reply)
    modifies report
    ensures report.bodyMd == Finished(old(report.bodyMd), count, reply)
    ensures Tags(Verified(old(report.bodyMd), count)) <= Tags(report.bodyMd)
  {
    VerifyCitations(report, count);
    Edit(report, reply);
  }

  /** Nothing of the draft stands between an accepted rewrite and a tag of its own: whatever is appended to it, it
      is accepted still. */
  lemma InventedTagAccepted(draft: string, edited: string, d: string)
    requires Accepts(draft, edited) && Digits(d)
    ensures var more := edited + " [" + d + "]"; Accepts(draft, more) && "[" + d + "]" in Tags(more)
  {
    hide Tags, WordCount, Occurs, Digits;
    var t, more := "[" + d + "]", edited + " [" + d + "]";
    assert more == edited + (" " + t) && more[|edited| + 1..|edited| + 1 + |t|] == t;
    DigitsHaveNoBracket(d);
    OccursAt(t, more, |edited| + 1);
    TagsOccur(t, more);
    WordsStay(false, edited, " " + t);
    forall x | x in Tags(draft) ensures x in Tags(more) {
      TagsOccur(x, draft);
      TagsOccur("1", draft);
      TagsOccur(x, edited);
      var i := OccursWhere(x, edited);
      assert more[i..i + |x|] == edited[i..i + |x|];
      OccursAt(x, more, i);
      TagsOccur(x, more);
    }
  }

  lemma {:induction false} WordsStay(inside: bool, s: string, t: string)
    ensures WordCount(inside, s + t) >= WordCount(inside, s)
    decreases |s|
  {
    if s == "" {
      assert s + t == t;
    } else {
      assert (s + t)[1..] == s[1..] + t && (s + t)[0] == s[0];
      WordsStay(!IsSpace(s[0]), s[1..], t);
    }
  }

  /** Every tag that the editor's cleaning uncovers in the draft names a finding. */
  ghost predicate HiddenTagsAreIndices(draft: string, count: nat) {
    forall d | Digits(d) && StretchLeaves(FILLERS, draft, d) && "[" + d + "]" !in Tags(draft) :: d in Indices(count)
  }

  /** Every tag of the final body names a finding, exactly: if the rewrite is taken, its tags do; if not, those of the
      verified body do and so does each that a stretch of it hides. */
  lemma FinalTagsIff(body: string, count: nat, reply: Reply)
    ensures TagsAreIndices(Finished(body, count, reply), count)
       <==> if Taken(Verified(body, count), reply) then TagsAreIndices(Edited(reply.text), count)
            else TagsAreIndices(Verified(body, count), count) && HiddenTagsAreIndices(Verified(body, count), count)
  {
    hide Verified, Taken, Edited, DeleteAll, FILLERS, StretchLeaves, Tags, Digits, Indices;
    var draft := Verified(body, count);
    PhrasesAreBracketFree();
    KeepsEveryTag(draft, reply);
    if !Taken(draft, reply) {
      forall d | Digits(d)
        ensures "[" + d + "]" in Tags(DeleteAll(FILLERS, draft)) <==> StretchLeaves(FILLERS, draft, d) {
        TagsOfDeleted(FILLERS, draft, d);
      }
    }
  }

  // ---------------------------------------------------------------------------
  // An index of no finding that comes back
  // ---------------------------------------------------------------------------

  lemma {:induction false} NoBracketNothingCleaned(s: string, valid: set<string>)
    requires forall i | 0 <= i < |s| :: s[i] != '['
    ensures CleanGroups(s, valid) == s
  {
    if s != "" {
      NoBracketNothingCleaned(s[1..], valid);
    }
  }

  lemma {:induction false} NoPunctuationNothingFixed(s: string)
    requires forall i | 0 <= i < |s| :: !IsPunctuation(s[i])
    ensures FixSpacing(s) == s
  {
    if s != "" {
      NoPunctuationNothingFixed(s[1..]);
    }
  }

  lemma OpensNothing(x: string, valid: set<string>)
    requires x != "" && !InGroup(x[0]) && x[0] != ']' && forall i | 0 <= i < |x| :: x[i] != '['
    ensures CleanGroups("[" + x, valid) == "[" + x
  {
    hide CleanGroups;
    var s := "[" + x;
    assert s[1..] == x && s[0] == '[' && Run(x) == 0 && !Opens(s);
    NoBracketNothingCleaned(x, valid);
    CleanStep(s, valid);
  }

  lemma BlankNothing(x: string)
    requires x != "" && !IsSpace(x[0]) && x[0] != ']' && forall i | 0 <= i < |x| :: x[i] != '['
    ensures DropBlank("[" + x) == "[" + x
  {
    var s := "[" + x;
    assert s[1..] == x && s[0] == '[' && SpaceRun(x) == 0;
    DropBlankCopies(x, "");
    assert x + "" == x;
  }

  lemma BracketedWordsStay(x: string, count: nat)
    requires x != "" && !InGroup(x[0]) && x[0] != ']'
    requires forall i | 0 <= i < |x| :: x[i] != '[' && !IsPunctuation(x[i])
    ensures Verified("[" + x, count) == "[" + x
  {
    hide CleanGroups, DropBlank, FixSpacing;
    OpensNothing(x, Indices(count));
    BlankNothing(x);
    NoPunctuationNothingFixed("[" + x);
  }

  lemma PhraseHasNoPunctuation()
    ensures forall i | 0 <= i < |PHRASE| :: !IsPunctuation(PHRASE[i]) && !IsBracket(PHRASE[i])
  {
  }

  lemma OneIsNoIndex()
    ensures "1" !in Indices(0) && Digits("1")
  {
  }

  /** With no finding at all, the verifier leaves no tag, and the editor's cleaning brings one about. */
  lemma {:induction false} DeletionBringsOneBack()
    ensures var body := "[" + PHRASE + " 1]";
            && Verified(body, 0) == body && TagsAreIndices(body, 0) && !TagsAreIndices(Finished(body, 0, Failed), 0)
  {
    hide Verified, Tags, FILLERS, DeleteAll, PHRASE, WordCount, IsTag;
    var x := PHRASE + " 1]";
    var body := "[" + x;
    assert body == "[" + PHRASE + " 1]";
    PhraseHasNoPunctuation();
    PhraseStarts();
    BracketedWordsStay(x, 0);
    DeletionCanMakeATag();
    OneIsNoIndex();
    assert "[" + "1" + "]" == "[1]";
    NoTagOfWords(x);
  }

  lemma {:induction false} NoTagWithoutBracket(s: string)
    requires forall i | 0 <= i < |s| :: s[i] != '['
    ensures Tags(s) == {}
  {
    if s != "" {
      NoTagWithoutBracket(s[1..]);
    }
  }

  lemma NoTagOfWords(x: string)
    requires x != "" && !IsDigit(x[0]) && forall i | 0 <= i < |x| :: x[i] != '['
    ensures Tags("[" + x) == {}
  {
    var s := "[" + x;
    NoTagWithoutBracket(x);
    assert s[1..] == x && s[0] == '[' && DigitRun(x) == 0;
  }

  lemma PhraseStarts()
    ensures |PHRASE| > 0 && PHRASE[0] == 'i'
  {
  }
}

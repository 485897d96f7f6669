/**
 `EditorAgent` (core/research/agents/editor.py): a model's rewrite is taken only
 if it loses no citation tag; otherwise filler phrases are deleted from the draft.
 */
module Editor {
  import opened Text
  import opened Report

  // ---------------------------------------------------------------------------
  // Filler phrases
  // ---------------------------------------------------------------------------

  /** `(?i)\b<phrase>,?\s*`: the phrase in its spellings, and whether a comma may follow. */
  datatype Filler = Filler(spellings: seq<string>, comma: bool)

  const FILLERS := [
    Filler(["it is important to note that"], false),
    Filler(["in today's rapidly evolving landscape", "in todays rapidly evolving landscape"], true),
    Filler(["it is worth mentioning that"], false),
    Filler(["this highlights the importance of"], false),
    Filler(["it should be noted that"], false)]

  /** How much of `s` one spelling matches, without what may follow; 0 for no match. */
  function Spelled(spellings: seq<string>, s: string): (n: nat)
    ensures n <= |s|
    ensures n > 0 ==> exists k | 0 <= k < |spellings| :: n == |spellings[k]| && Lower(s[..n]) == spellings[k]
  {
    if spellings == [] then 0
    else if |spellings[0]| <= |s| && Lower(s[..|spellings[0]|]) == spellings[0] then |spellings[0]|
    else Spelled(spellings[1..], s)
  }

  /** How much of `s` a filler takes up. */
  function Matched(f: Filler, s: string): (n: nat)
    ensures n <= |s|
  {
    var n := Spelled(f.spellings, s);
    if n == 0 then 0
    else
      var m := if f.comma && n < |s| && s[n] == ',' then n + 1 else n;
      m + SpaceRun(s[m..])
  }

  /** How much is deleted here: a match begins at a word boundary. */
  function Cut(f: Filler, inWord: bool, s: string): (n: nat)
    requires s != ""
    ensures n <= |s|
  {
    if inWord == IsWord(s[0]) then 0 else Matched(f, s)
  }

  /** `re.sub(filler, "", s)`; `inWord`: the character before `s` belongs to a word. */
  function Delete(f: Filler, inWord: bool, s: string): string
    decreases |s|
  {
    if s == "" then ""
    else
      var n := Cut(f, inWord, s);
      if n > 0 then Delete(f, IsWord(s[n - 1]), s[n..])
      else [s[0]] + Delete(f, IsWord(s[0]), s[1..])
  }

  function DeleteAll(fillers: seq<Filler>, s: string): string {
    if fillers == [] then s else DeleteAll(fillers[1..], Delete(fillers[0], false, s))
  }

  /** `_clean_filler_rules` */
  method CleanFillerRules(text: string) returns (r: string)
    ensures r == DeleteAll(FILLERS, text)
  {
    r := text;
    for i := 0 to |FILLERS|
      invariant DeleteAll(FILLERS[i..], r) == DeleteAll(FILLERS, text)
    {
      assert FILLERS[i..][1..] == FILLERS[i + 1..] && FILLERS[i..][0] == FILLERS[i];
      r := Delete(FILLERS[i], false, r);
    }
    assert FILLERS[|FILLERS|..] == [];
  }

  predicate IsLetter(c: char) {
    'a' <= c <= 'z' || 'A' <= c <= 'Z'
  }

  predicate IsBracket(c: char) {
    c == '[' || c == ']'
  }

  predicate NoBracket(s: string) {
    forall i | 0 <= i < |s| :: !IsBracket(s[i])
  }

  /** A phrase starts with a letter and has no bracket. */
  predicate PlainPhrase(p: string) {
    p != "" && IsLetter(p[0]) && NoBracket(p)
  }

  predicate Plain(f: Filler) {
    forall k | 0 <= k < |f.spellings| :: PlainPhrase(f.spellings[k])
  }

  /** What starts with an opening bracket and has no letter: `[7]`, `[1, 2]`. */
  predicate Tagged(x: string) {
    x != "" && x[0] == '[' && forall i | 0 <= i < |x| :: !IsLetter(x[i])
  }

  lemma MatchedIsPlain(f: Filler, s: string)
    requires Plain(f) && Matched(f, s) > 0
    ensures IsLetter(s[0])
    ensures forall i | 0 <= i < Matched(f, s) :: s[i] != '['
  {
    var n := Spelled(f.spellings, s);
    var k :| 0 <= k < |f.spellings| && n == |f.spellings[k]| && Lower(s[..n]) == f.spellings[k];
    assert PlainPhrase(f.spellings[k]);
    assert forall i | 0 <= i < n :: LowerChar(s[i]) == f.spellings[k][i] && !IsBracket(f.spellings[k][i]);
    var m := if f.comma && n < |s| && s[n] == ',' then n + 1 else n;
    forall i | n <= i < Matched(f, s) ensures s[i] != '[' {
      if i >= m {
        assert s[i] == s[m..][i - m];
      }
    }
  }

  lemma {:induction false} DeleteCopies(f: Filler, inWord: bool, x: string, t: string)
    requires Plain(f) && forall i | 0 <= i < |x| :: !IsLetter(x[i])
    ensures x <= Delete(f, inWord, x + t)
    decreases |x|
  {
    if x != "" {
      var s := x + t;
      assert s[0] == x[0] && s[1..] == x[1..] + t;
      if Matched(f, s) > 0 {
        MatchedIsPlain(f, s);
      }
      DeleteCopies(f, IsWord(x[0]), x[1..], t);
    }
  }

  /** No deletion touches a bracketed tag. */
  lemma {:induction false} DeleteKeepsTags(f: Filler, inWord: bool, x: string, s: string)
    requires Plain(f) && Tagged(x) && Occurs(x, s)
    ensures Occurs(x, Delete(f, inWord, s))
    decreases |s|
  {
    hide Matched;
    var i := OccursWhere(x, s);
    if i == 0 {
      DeleteCopies(f, inWord, x, s[|x|..]);
      assert s == x + s[|x|..];
    } else {
      var n := Cut(f, inWord, s);
      assert s[i] == x[0];
      if n > 0 {
        MatchedIsPlain(f, s);
        OccursAfter(x, s, i, n);
        DeleteKeepsTags(f, IsWord(s[n - 1]), x, s[n..]);
      } else {
        OccursAfter(x, s, i, 1);
        DeleteKeepsTags(f, IsWord(s[0]), x, s[1..]);
        OccursLater(x, Delete(f, inWord, s), 1);
      }
    }
  }

  lemma {:induction false} DeleteAllKeepsTags(fillers: seq<Filler>, x: string, s: string)
    requires (forall k | 0 <= k < |fillers| :: Plain(fillers[k])) && Tagged(x) && Occurs(x, s)
    ensures Occurs(x, DeleteAll(fillers, s))
  {
    if fillers != [] {
      DeleteKeepsTags(fillers[0], false, x, s);
      DeleteAllKeepsTags(fillers[1..], x, Delete(fillers[0], false, s));
    }
  }

  // ---------------------------------------------------------------------------
  // Tags
  // ---------------------------------------------------------------------------

  function DigitRun(s: string): (n: nat)
    ensures n <= |s| && forall i | 0 <= i < n :: IsDigit(s[i])
    ensures n < |s| ==> !IsDigit(s[n])
  {
    if s != "" && IsDigit(s[0]) then 1 + DigitRun(s[1..]) else 0
  }

  /** The length of the tag `\[\d+\]` here, or 0. */
  function TagHere(s: string): (n: nat)
    ensures n <= |s|
  {
    if s == "" || s[0] != '[' then 0
    else
      var n := DigitRun(s[1..]);
      if n > 0 && n + 1 < |s| && s[n + 1] == ']' then n + 2 else 0
  }

  /** `set(re.findall(r"\[\d+\]", s))` */
  function Tags(s: string): set<string> {
    if s == "" then {} else (if TagHere(s) > 0 then {s[..TagHere(s)]} else {}) + Tags(s[1..])
  }

  predicate IsTag(t: string) {
    |t| >= 3 && t[0] == '[' && t[|t| - 1] == ']' && forall i | 0 < i < |t| - 1 :: IsDigit(t[i])
  }

  lemma TagAtHead(t: string, s: string)
    requires IsTag(t) && t <= s
    ensures TagHere(s) == |t|
  {
    var n := DigitRun(s[1..]);
    assert forall i | 0 < i < |t| :: s[1..][i - 1] == t[i];
    assert s[1..][|t| - 2] == ']';
  }

  /** The tags of a text are the tags that occur in it. */
  lemma {:induction false} TagsOccur(t: string, s: string)
    ensures t in Tags(s) <==> IsTag(t) && Occurs(t, s)
  {
    if s != "" {
      TagsOccur(t, s[1..]);
      var n := TagHere(s);
      if n > 0 {
        assert s[..n][n - 1] == ']';
        assert forall i | 0 < i < n - 1 :: s[..n][i] == s[1..][i - 1];
      }
      if IsTag(t) && t <= s {
        TagAtHead(t, s);
        assert t == s[..|t|];
      }
    }
  }

  // ---------------------------------------------------------------------------
  // The agent
  // ---------------------------------------------------------------------------

  /** `len(s.split())`; `inside` a word. */
  function WordCount(inside: bool, s: string): nat
    decreases |s|
  {
    if s == "" then 0
    else if IsSpace(s[0]) then WordCount(false, s[1..])
    else (if inside then 0 else 1) + WordCount(true, s[1..])
  }

  function Find(part: string, s: string): (i: int)
    ensures -1 <= i && i + |part| <= |s| + if i < 0 then |part| else 0
  {
    if part <= s then 0
    else if s == "" then -1
    else
      var i := Find(part, s[1..]);
      if i < 0 then -1 else i + 1
  }

  const THINK := "<think>"
  const END := "</think>"

  /** `_THINK_RE.sub("", s)` */
  function WithoutThinking(s: string): string
    decreases |s|
  {
    if s == "" then ""
    else
      var i := if THINK <= Lower(s) then Find(END, Lower(s[|THINK|..])) else -1;
      if i >= 0 then WithoutThinking(s[|THINK| + i + |END|..])
      else [s[0]] + WithoutThinking(s[1..])
  }

  function StripHashes(s: string): string {
    if s != "" && s[0] == '#' then StripHashes(s[1..]) else s
  }

  datatype Reply = Failed | Content(text: string)

  function Edited(text: string): string {
    Strip(Strip(WithoutThinking(text)))
  }

  function Headline(text: string): string {
    Strip(StripHashes(Split(text)[0]))
  }

  /** The guard: enough words, and no tag of the draft lost (the fallback set of a rewrite without tags holds no
      tag). */
  predicate Accepts(draft: string, edited: string) {
    WordCount(false, edited) >= 15 && Tags(draft) <= if Tags(edited) == {} then {"1"} else Tags(edited)
  }

  /** Whether the rewrite is taken. */
  predicate Taken(draft: string, reply: Reply) {
    WordCount(false, draft) >= 30 && reply.Content? && Accepts(draft, Edited(reply.text))
  }

  lemma ImportantIsPlain()
    ensures PlainPhrase("it is important to note that")
  {
    assert "it is important to note that"[0] == 'i';
  }

  lemma LandscapeIsPlain()
    ensures PlainPhrase("in today's rapidly evolving landscape")
  {
    assert "in today's rapidly evolving landscape"[0] == 'i';
  }

  lemma LandscapesIsPlain()
    ensures PlainPhrase("in todays rapidly evolving landscape")
  {
    assert "in todays rapidly evolving landscape"[0] == 'i';
  }

  lemma WorthIsPlain()
    ensures PlainPhrase("it is worth mentioning that")
  {
    assert "it is worth mentioning that"[0] == 'i';
  }

  lemma HighlightsIsPlain()
    ensures PlainPhrase("this highlights the importance of")
  {
    assert "this highlights the importance of"[0] == 't';
  }

  lemma NotedIsPlain()
    ensures PlainPhrase("it should be noted that")
  {
    assert "it should be noted that"[0] == 'i';
  }

  lemma PhrasesArePlain()
    ensures forall k | 0 <= k < |FILLERS| :: Plain(FILLERS[k])
  {
    hide PlainPhrase;
    ImportantIsPlain();
    LandscapeIsPlain();
    LandscapesIsPlain();
    WorthIsPlain();
    HighlightsIsPlain();
    NotedIsPlain();
  }

  lemma {:induction false} NothingToDelete(fillers: seq<Filler>)
    ensures DeleteAll(fillers, "") == ""
  {
    if fillers != [] {
      NothingToDelete(fillers[1..]);
    }
  }

  /** `EditorAgent.run`, for whatever the model answers. */
  method Edit(report: ReportOutput, reply: Reply)
    modifies report
    ensures report.bodyMd == if Taken(old(report.bodyMd), reply) then Edited(reply.text)
            else DeleteAll(FILLERS, old(report.bodyMd))
    ensures report.summary == if Taken(old(report.bodyMd), reply) && |Headline(Edited(reply.text))| > 20
                              then Headline(Edited(reply.text)) else old(report.summary)
    // every citation tag of the draft is still there
    ensures Tags(old(report.bodyMd)) <= Tags(report.bodyMd)
  {
    KeepsEveryTag(report.bodyMd, reply);
    if report.bodyMd == "" {
      NothingToDelete(FILLERS);
      return;
    }
    if WordCount(false, report.bodyMd) < 30 {
      var cleaned := CleanFillerRules(report.bodyMd);
      report.bodyMd := cleaned;
      return;
    }
    match reply
    case Failed =>
      var cleaned := CleanFillerRules(report.bodyMd);
      report.bodyMd := cleaned;
    case Content(text) =>
      var edited := Edited(text);
      if Accepts(report.bodyMd, edited) {
        report.bodyMd := edited;
        var candidate := Headline(edited);
        if |candidate| > 20 {
          report.summary := candidate;
        }
      } else {
        var cleaned := CleanFillerRules(report.bodyMd);
        report.bodyMd := cleaned;
      }
  }

  lemma KeepsEveryTag(draft: string, reply: Reply)
    ensures Tags(draft) <= Tags(if Taken(draft, reply) then Edited(reply.text) else DeleteAll(FILLERS, draft))
  {
    if Taken(draft, reply) {
      TagsOccur("1", draft);
    } else {
      PhrasesArePlain();
      forall t | t in Tags(draft) ensures t in Tags(DeleteAll(FILLERS, draft)) {
        TagsOccur(t, draft);
        DeleteAllKeepsTags(FILLERS, t, draft);
        TagsOccur(t, DeleteAll(FILLERS, draft));
      }
    }
  }

  // ---------------------------------------------------------------------------
  // Which tags the cleaned draft has
  // ---------------------------------------------------------------------------

  /** A text that cannot be part of a filler match where it begins. */
  predicate Stops(b: string) {
    b == "" || IsBracket(b[0])
  }

  predicate BracketFree(f: Filler) {
    forall k | 0 <= k < |f.spellings| :: f.spellings[k] != "" && NoBracket(f.spellings[k])
  }

  lemma {:induction false} SpelledBefore(spellings: seq<string>, x: string, b: string)
    requires Stops(b) && forall k | 0 <= k < |spellings| :: NoBracket(spellings[k])
    ensures Spelled(spellings, x + b) == Spelled(spellings, x)
  {
    if spellings != [] {
      hide Lower;
      var p := spellings[0];
      SpelledBefore(spellings[1..], x, b);
      if |p| <= |x| {
        assert (x + b)[..|p|] == x[..|p|];
      } else if |p| <= |x + b| {
        assert Lower((x + b)[..|p|])[|x|] == LowerChar(b[0]) == b[0];
        assert !IsBracket(p[|x|]);
      }
    }
  }

  lemma {:induction false} SpaceRunBefore(x: string, b: string)
    requires Stops(b)
    ensures SpaceRun(x + b) == SpaceRun(x)
  {
    if x == "" {
      assert x + b == b;
    } else {
      assert (x + b)[1..] == x[1..] + b;
      SpaceRunBefore(x[1..], b);
    }
  }

  /** No match reaches into a bracket. */
  lemma MatchedBefore(f: Filler, x: string, b: string)
    requires BracketFree(f) && Stops(b)
    ensures Matched(f, x + b) == Matched(f, x)
  {
    hide Spelled, SpaceRun;
    SpelledBefore(f.spellings, x, b);
    var n := Spelled(f.spellings, x);
    if n > 0 {
      var m := if f.comma && n < |x| && x[n] == ',' then n + 1 else n;
      assert (x + b)[m..] == x[m..] + b;
      SpaceRunBefore(x[m..], b);
    }
  }

  lemma DeleteFromBracket(f: Filler, inWord: bool, b: string)
    requires BracketFree(f) && b != "" && IsBracket(b[0])
    ensures Delete(f, inWord, b) == [b[0]] + Delete(f, false, b[1..])
  {
    MatchedBefore(f, "", b);
    assert "" + b == b && Spelled(f.spellings, "") == 0;
  }

  lemma {:induction false} DeleteBefore(f: Filler, inWord: bool, x: string, b: string)
    requires BracketFree(f) && b != "" && IsBracket(b[0])
    ensures Delete(f, inWord, x + b) == Delete(f, inWord, x) + Delete(f, false, b)
    decreases |x|
  {
    hide Matched, Delete;
    if x == "" {
      assert x + b == b;
      DeleteFromBracket(f, inWord, b);
      DeleteFromBracket(f, false, b);
      DeleteNothing(f, inWord);
    } else {
      var s, n := x + b, Cut(f, inWord, x);
      MatchedBefore(f, x, b);
      DeleteStep(f, inWord, s, n);
      DeleteStep(f, inWord, x, n);
      if n > 0 {
        assert s[n..] == x[n..] + b;
        DeleteBefore(f, IsWord(x[n - 1]), x[n..], b);
      } else {
        assert s[1..] == x[1..] + b;
        DeleteBefore(f, IsWord(x[0]), x[1..], b);
      }
    }
  }

  /** A deletion works on both sides of a bracket by itself. */
  lemma DeleteAtBracket(f: Filler, inWord: bool, x: string, c: char, y: string)
    requires BracketFree(f) && IsBracket(c)
    ensures Delete(f, inWord, x + [c] + y) == Delete(f, inWord, x) + [c] + Delete(f, false, y)
  {
    hide Delete;
    var b := [c] + y;
    assert x + [c] + y == x + b && b[1..] == y;
    DeleteBefore(f, inWord, x, b);
    DeleteFromBracket(f, false, b);
  }

  lemma DeleteNothing(f: Filler, inWord: bool)
    ensures Delete(f, inWord, "") == ""
  {
  }

  lemma DeleteStep(f: Filler, inWord: bool, s: string, n: nat)
    requires s != "" && n == Cut(f, inWord, s)
    ensures Delete(f, inWord, s) ==
              if n > 0 then Delete(f, IsWord(s[n - 1]), s[n..]) else [s[0]] + Delete(f, IsWord(s[0]), s[1..])
  {
  }

  lemma {:induction false} DeleteAddsNothing(f: Filler, inWord: bool, s: string)
    requires NoBracket(s)
    ensures NoBracket(Delete(f, inWord, s))
    decreases |s|
  {
    if s != "" {
      var n := Cut(f, inWord, s);
      DeleteAddsNothing(f, if n > 0 then IsWord(s[n - 1]) else IsWord(s[0]), if n > 0 then s[n..] else s[1..]);
    }
  }

  ghost predicate AllBracketFree(fillers: seq<Filler>) {
    forall k | 0 <= k < |fillers| :: BracketFree(fillers[k])
  }

  /** So does the whole cleaning. */
  lemma {:induction false} DeleteAllAtBracket(fillers: seq<Filler>, x: string, c: char, y: string)
    requires AllBracketFree(fillers) && IsBracket(c)
    ensures DeleteAll(fillers, x + [c] + y) == DeleteAll(fillers, x) + [c] + DeleteAll(fillers, y)
  {
    hide Delete;
    if fillers != [] {
      DeleteAtBracket(fillers[0], false, x, c, y);
      DeleteAllAtBracket(fillers[1..], Delete(fillers[0], false, x), c, Delete(fillers[0], false, y));
    }
  }

  lemma {:induction false} DeleteAllAddsNothing(fillers: seq<Filler>, s: string)
    requires NoBracket(s)
    ensures NoBracket(DeleteAll(fillers, s))
  {
    if fillers != [] {
      DeleteAddsNothing(fillers[0], false, s);
      DeleteAllAddsNothing(fillers[1..], Delete(fillers[0], false, s));
    }
  }

  predicate Digits(d: string) {
    d != "" && forall i | 0 <= i < |d| :: IsDigit(d[i])
  }

  /** The draft has a stretch `[w]`, with no bracket inside, of which the cleaning leaves the digits `d`. */
  ghost predicate StretchLeaves(fillers: seq<Filler>, s: string, d: string) {
    exists w :: NoBracket(w) && DeleteAll(fillers, w) == d && Occurs("[" + w + "]", s)
  }

  /** Up to the first bracket, the bracket, and the rest. */
  lemma {:induction false} FirstBracket(s: string) returns (x: string, y: string)
    requires !NoBracket(s)
    ensures |x| < |s| && NoBracket(x) && IsBracket(s[|x|]) && s == x + [s[|x|]] + y
  {
    if IsBracket(s[0]) {
      x, y := "", s[1..];
    } else {
      var i :| 0 <= i < |s| && IsBracket(s[i]);
      assert IsBracket(s[1..][i - 1]);
      x, y := FirstBracket(s[1..]);
      assert s == [s[0]] + s[1..] == [s[0]] + x + [s[1..][|x|]] + y;
      x := [s[0]] + x;
    }
  }

  lemma FirstBracketAgrees(p: string, c: char, q: string, d: string)
    requires NoBracket(p) && NoBracket(d) && IsBracket(c) && d + "]" <= p + [c] + q
    ensures p == d && c == ']'
  {
    var u, v := d + "]", p + [c] + q;
    assert u[|d|] == ']' && v[|p|] == c;
    assert forall i | 0 <= i < |d| :: u[i] == d[i];
    assert forall i | 0 <= i < |p| :: v[i] == p[i];
    assert |p| == |d|;
    assert p == v[..|p|] && d == u[..|d|];
  }

  lemma DigitsHaveNoBracket(d: string)
    requires Digits(d)
    ensures NoBracket(d) && IsTag("[" + d + "]")
  {
  }

  /** A stretch `[w]` in the draft becomes `[D(w)]`. */
  lemma StretchCleaned(fillers: seq<Filler>, s: string, w: string)
    requires AllBracketFree(fillers) && Occurs("[" + w + "]", s)
    ensures Occurs("[" + DeleteAll(fillers, w) + "]", DeleteAll(fillers, s))
  {
    hide DeleteAll;
    var t := "[" + w + "]";
    var i := OccursWhere(t, s);
    var x, y := s[..i], s[i + |t|..];
    assert s == x + ['['] + (w + [']'] + y) by {
      assert s == x + s[i..i + |t|] + y;
    }
    DeleteAllAtBracket(fillers, x, '[', w + [']'] + y);
    DeleteAllAtBracket(fillers, w, ']', y);
    var dx, dw, dy := DeleteAll(fillers, x), DeleteAll(fillers, w), DeleteAll(fillers, y);
    var r := dx + ['['] + (dw + [']'] + dy);
    assert r[|dx|..|dx| + |dw| + 2] == "[" + dw + "]";
    OccursAt("[" + dw + "]", r, |dx|);
  }

  /** A tag of the cleaned draft comes from a stretch. */
  lemma {:induction false} TagFromStretch(fillers: seq<Filler>, s: string, d: string)
    requires AllBracketFree(fillers) && Digits(d) && Occurs("[" + d + "]", DeleteAll(fillers, s))
    ensures StretchLeaves(fillers, s, d)
    decreases |s|
  {
    hide DeleteAll, Occurs, StretchLeaves, Digits;
    DigitsHaveNoBracket(d);
    var t, r := "[" + d + "]", DeleteAll(fillers, s);
    var i := OccursWhere(t, r);
    assert t[0] == '[' && r[i] == '[';
    if NoBracket(s) {
      DeleteAllAddsNothing(fillers, s);
    } else {
      var x, y := FirstBracket(s);
      var c := s[|x|];
      DeleteAllAtBracket(fillers, x, c, y);
      DeleteAllAddsNothing(fillers, x);
      var dx, dy := DeleteAll(fillers, x), DeleteAll(fillers, y);
      assert r == dx + [c] + dy;
      assert forall k | 0 <= k < |dx| :: r[k] == dx[k];
      if i == |dx| {
        assert r[i..] == [c] + dy && t <= r[i..];
        assert d + "]" == t[1..] <= r[i..][1..] == dy;
        StretchAfter(fillers, s, x, y, d);
      } else {
        assert r[|dx| + 1..] == dy;
        OccursAfter(t, r, i, |dx| + 1);
        TagFromStretch(fillers, y, d);
        assert s[|x| + 1..] == y;
        StretchLater(fillers, s, |x| + 1, d);
      }
    }
  }

  lemma StretchLater(fillers: seq<Filler>, s: string, n: nat, d: string)
    requires n <= |s| && StretchLeaves(fillers, s[n..], d)
    ensures StretchLeaves(fillers, s, d)
  {
    hide DeleteAll;
    var w :| NoBracket(w) && DeleteAll(fillers, w) == d && Occurs("[" + w + "]", s[n..]);
    OccursLater("[" + w + "]", s, n);
  }

  lemma StretchAfter(fillers: seq<Filler>, s: string, x: string, y: string, d: string)
    requires AllBracketFree(fillers) && NoBracket(d) && s == x + ['['] + y && d + "]" <= DeleteAll(fillers, y)
    ensures StretchLeaves(fillers, s, d)
  {
    hide DeleteAll;
    var dy := DeleteAll(fillers, y);
    assert dy[|d|] == (d + "]")[|d|] == ']';
    if NoBracket(y) {
      DeleteAllAddsNothing(fillers, y);
    } else {
      var w, z := FirstBracket(y);
      var c := y[|w|];
      DeleteAllAtBracket(fillers, w, c, z);
      DeleteAllAddsNothing(fillers, w);
      FirstBracketAgrees(DeleteAll(fillers, w), c, DeleteAll(fillers, z), d);
      assert s[|x|..|x| + |w| + 2] == "[" + w + "]";
      OccursAt("[" + w + "]", s, |x|);
    }
  }

  lemma PhrasesAreBracketFree()
    ensures AllBracketFree(FILLERS)
  {
    hide FILLERS;
    PhrasesArePlain();
    forall k | 0 <= k < |FILLERS| ensures BracketFree(FILLERS[k]) {
      assert Plain(FILLERS[k]);
      assert forall j | 0 <= j < |FILLERS[k].spellings| :: PlainPhrase(FILLERS[k].spellings[j]);
    }
  }

  /** The tags after any deletions, exactly: `[d]` for each stretch `[w]`, with no bracket inside, that the deletions
      cut down to the digits d. */
  lemma TagsOfDeleted(fillers: seq<Filler>, draft: string, d: string)
    requires AllBracketFree(fillers) && Digits(d)
    ensures "[" + d + "]" in Tags(DeleteAll(fillers, draft)) <==> StretchLeaves(fillers, draft, d)
  {
    hide DeleteAll;
    DigitsHaveNoBracket(d);
    TagsOccur("[" + d + "]", DeleteAll(fillers, draft));
    if StretchLeaves(fillers, draft, d) {
      var w :| NoBracket(w) && DeleteAll(fillers, w) == d && Occurs("[" + w + "]", draft);
      StretchCleaned(fillers, draft, w);
    }
    if Occurs("[" + d + "]", DeleteAll(fillers, draft)) {
      TagFromStretch(fillers, draft, d);
    }
  }

  lemma TagDigits(t: string) returns (d: string)
    requires IsTag(t)
    ensures Digits(d) && t == "[" + d + "]"
  {
    d := t[1..|t| - 1];
  }

  /** A stretch of the draft that is no tag yet and that the cleaning cuts down to a tag the draft does not have. */
  ghost predicate HidesATag(draft: string) {
    exists d :: Digits(d) && StretchLeaves(FILLERS, draft, d) && "[" + d + "]" !in Tags(draft)
  }

  /** Cleaning gives the draft a tag it did not have exactly if a bracketed stretch of it hides one. */
  lemma CleaningMakesATagIff(draft: string)
    ensures !(Tags(DeleteAll(FILLERS, draft)) <= Tags(draft)) <==> HidesATag(draft)
  {
    hide DeleteAll, FILLERS, Tags, StretchLeaves, Digits, IsTag;
    PhrasesAreBracketFree();
    var after := DeleteAll(FILLERS, draft);
    if HidesATag(draft) {
      var d :| Digits(d) && StretchLeaves(FILLERS, draft, d) && "[" + d + "]" !in Tags(draft);
      TagsOfDeleted(FILLERS, draft, d);
    }
    if !(Tags(after) <= Tags(draft)) {
      var t :| t in Tags(after) && t !in Tags(draft);
      TagsOccur(t, after);
      var d := TagDigits(t);
      TagsOfDeleted(FILLERS, draft, d);
    }
  }

  /** What is left once the matches at the very beginning are gone. */
  function Uncut(f: Filler, inWord: bool, s: string): string
    decreases |s|
  {
    if s == "" then ""
    else
      var n := Cut(f, inWord, s);
      if n > 0 then Uncut(f, IsWord(s[n - 1]), s[n..]) else s
  }

  lemma {:induction false} InsideAWordNothingGoes(f: Filler, s: string, d: string)
    requires Plain(f) && forall i | 0 <= i < |d| :: IsDigit(d[i])
    ensures Delete(f, true, s) == d <==> s == d
    decreases |s|
  {
    hide Matched;
    if s != "" {
      if Matched(f, s) > 0 {
        MatchedIsPlain(f, s);
      }
      if d != "" && s[0] == d[0] {
        InsideAWordNothingGoes(f, s[1..], d[1..]);
        assert s == [s[0]] + s[1..] && d == [d[0]] + d[1..];
      }
    }
  }

  /** One deletion leaves just digits of a stretch exactly if its matches stand directly before them, one after the
      other from the beginning. */
  lemma {:induction false} OnePassLeavesDigits(f: Filler, inWord: bool, w: string, d: string)
    requires Plain(f) && Digits(d)
    ensures Delete(f, inWord, w) == d <==> Uncut(f, inWord, w) == d
    decreases |w|
  {
    hide Matched;
    if w != "" {
      var n := Cut(f, inWord, w);
      if n > 0 {
        OnePassLeavesDigits(f, IsWord(w[n - 1]), w[n..], d);
      } else if w[0] == d[0] {
        InsideAWordNothingGoes(f, w[1..], d[1..]);
        assert w == [w[0]] + w[1..] && d == [d[0]] + d[1..];
      }
    }
  }

  /** The tags after one deletion, exactly: `[`, then matches of the filler one after the other or none, then digits
      and `]`. */
  lemma TagsOfOneDeletion(f: Filler, draft: string, d: string)
    requires Plain(f) && Digits(d)
    ensures "[" + d + "]" in Tags(Delete(f, false, draft))
       <==> exists w :: NoBracket(w) && Uncut(f, false, w) == d && Occurs("[" + w + "]", draft)
  {
    hide Delete, Uncut, Tags, Occurs, Digits;
    assert forall k | 0 <= k < |f.spellings| :: PlainPhrase(f.spellings[k]);
    OneFiller(f);
    forall w ensures DeleteAll([f], w) == d <==> Uncut(f, false, w) == d {
      OnePassLeavesDigits(f, false, w, d);
    }
    TagsOfDeleted([f], draft, d);
    if StretchLeaves([f], draft, d) {
      var w :| NoBracket(w) && DeleteAll([f], w) == d && Occurs("[" + w + "]", draft);
      assert Uncut(f, false, w) == d;
    }
  }

  lemma OneFiller(f: Filler)
    ensures forall w :: DeleteAll([f], w) == Delete(f, false, w)
  {
    forall w ensures DeleteAll([f], w) == Delete(f, false, w) {
      assert [f][1..] == [];
    }
  }

  // ---------------------------------------------------------------------------
  // A tag that was not there
  // ---------------------------------------------------------------------------

  const PHRASE := "it is important to note that"

  lemma {:induction false} TooShortToMatch(f: Filler, inWord: bool, s: string)
    requires forall k | 0 <= k < |f.spellings| :: |f.spellings[k]| > |s|
    ensures Delete(f, inWord, s) == s
    decreases |s|
  {
    if s != "" {
      assert Spelled(f.spellings, s) == 0;
      TooShortToMatch(f, IsWord(s[0]), s[1..]);
    }
  }

  lemma {:induction false} AllTooShort(fillers: seq<Filler>, s: string)
    requires forall j | 0 <= j < |fillers| :: forall k | 0 <= k < |fillers[j].spellings| ::
             |fillers[j].spellings[k]| > |s|
    ensures DeleteAll(fillers, s) == s
  {
    if fillers != [] {
      TooShortToMatch(fillers[0], false, s);
      AllTooShort(fillers[1..], s);
    }
  }

  lemma SpelledFirst(f: Filler, s: string)
    requires f.spellings != [] && f.spellings[0] <= s && Lower(f.spellings[0]) == f.spellings[0]
    ensures Spelled(f.spellings, s) == |f.spellings[0]|
  {
    assert s[..|f.spellings[0]|] == f.spellings[0];
  }

  lemma MatchAlone(f: Filler, s: string, t: string)
    requires f.spellings != [] && f.spellings[0] != "" && !f.comma && Lower(f.spellings[0]) == f.spellings[0]
    requires s == f.spellings[0] + (" " + t) && t != "" && !IsSpace(t[0])
    ensures Matched(f, s) == |f.spellings[0]| + 1
  {
    hide Lower, SpaceRun, Spelled;
    SpelledFirst(f, s);
    assert s[|f.spellings[0]|..] == " " + t;
    OneSpace(t);
  }

  lemma OneSpace(t: string)
    requires t != "" && !IsSpace(t[0])
    ensures SpaceRun(" " + t) == 1
  {
    assert (" " + t)[1..] == t;
  }

  lemma PhraseAlone(p: string, t: string)
    requires PlainPhrase(p) && Lower(p) == p && t != "" && !IsSpace(t[0])
    ensures Delete(Filler([p], false), false, "[" + p + " " + t) == "[" + Delete(Filler([p], false), false, t)
  {
    hide Matched, Lower, Delete;
    var f, u := Filler([p], false), p + (" " + t);
    var s := "[" + p + " " + t;
    MatchAlone(f, u, t);
    assert s[0] == '[' && s[1..] == u;
    assert u[0] == p[0] && u[|p|] == ' ' && u[|p| + 1..] == t;
    DeleteStep(f, false, s, 0);
    DeleteStep(f, false, u, |p| + 1);
  }

  lemma PhraseIsLower()
    ensures Lower(PHRASE) == PHRASE
  {
    hide Lower;
    assert forall i | 0 <= i < |PHRASE| :: LowerChar(PHRASE[i]) == PHRASE[i];
  }

  lemma NoTagBefore(p: string)
    requires PlainPhrase(p)
    ensures "[1]" !in Tags("[" + p + " 1]")
  {
    var s := "[" + p + " 1]";
    assert s[1] == p[0] && forall j | 0 <= j < |p| :: s[j + 1] == p[j];
    assert s[|p| + 1] == ' ' && s[|p| + 2] == '1' && s[|p| + 3] == ']';
    forall i, j | 0 <= i && j == i + 3 <= |s| ensures s[i..j] != "[1]" {
      assert s[i..j][0] == s[i] && s[i..j][1] == s[i + 1];
      assert "[1]"[0] == '[' && "[1]"[1] == '1';
    }
    TagsOccur("[1]", s);
    if Occurs("[1]", s) {
      var i := OccursWhere("[1]", s);
    }
  }

  lemma TagAfter()
    ensures DeleteAll(FILLERS, "[" + PHRASE + " " + "1]") == "[1]"
  {
    hide Delete, PlainPhrase, Lower;
    ImportantIsPlain();
    PhraseIsLower();
    PhraseAlone(PHRASE, "1]");
    TooShortToMatch(FILLERS[0], false, "1]");
    AllTooShort(FILLERS[1..], "[1]");
    assert FILLERS[0] == Filler([PHRASE], false) && "[" + "1]" == "[1]";
  }

  /** Deleting a filler inside brackets can make a tag that the draft did not have. */
  lemma DeletionCanMakeATag()
    ensures "[1]" !in Tags("[" + PHRASE + " 1]") && "[1]" in Tags(DeleteAll(FILLERS, "[" + PHRASE + " 1]"))
  {
    hide Delete, DeleteAll, Tags, FILLERS;
    assert "[" + PHRASE + " " + "1]" == "[" + PHRASE + " 1]";
    ImportantIsPlain();
    NoTagBefore(PHRASE);
    TagAfter();
    TagsOccur("[1]", "[1]");
  }
}

/**
 What the compression prefers and what it leaves out: which paragraphs are candidates, which of two ranks ahead, and
 where a text is cut.
 */
module CompressMeaning {
  import opened Text
  import opened TextMeaning
  import opened StableOrder
  import opened Compress

  // ---------------------------------------------------------------------------
  // Candidates
  // ---------------------------------------------------------------------------

  /** The eleven phrases, in any case. */
  predicate NamesBoilerplate(p: string) {
    var s := Lower(p);
    || Occurs("accept cookies", s) || Occurs("cookie policy", s) || Occurs("privacy policy", s)
    || Occurs("terms of service", s) || Occurs("all rights reserved", s) || Occurs("sign up for our newsletter", s)
    || Occurs("subscribe now", s) || Occurs("advertisement", s)
    || Occurs("share on twitter", s) || Occurs("share on facebook", s) || Occurs("share on linkedin", s)
  }

  lemma ElevenPhrases()
    ensures |BOILERPLATE| == 11
    ensures BOILERPLATE[0] == "accept cookies" && BOILERPLATE[1] == "cookie policy"
    ensures BOILERPLATE[2] == "privacy policy" && BOILERPLATE[3] == "terms of service"
    ensures BOILERPLATE[4] == "all rights reserved" && BOILERPLATE[5] == "sign up for our newsletter"
    ensures BOILERPLATE[6] == "subscribe now" && BOILERPLATE[7] == "advertisement"
    ensures BOILERPLATE[8] == "share on twitter" && BOILERPLATE[9] == "share on facebook"
    ensures BOILERPLATE[10] == "share on linkedin"
  {
  }

  lemma OneOfEleven(list: seq<string>, s: string)
    requires |list| == 11
    ensures (exists m | m in list :: Occurs(m, s)) <==>
              || Occurs(list[0], s) || Occurs(list[1], s) || Occurs(list[2], s) || Occurs(list[3], s)
              || Occurs(list[4], s) || Occurs(list[5], s) || Occurs(list[6], s) || Occurs(list[7], s)
              || Occurs(list[8], s) || Occurs(list[9], s) || Occurs(list[10], s)
  {
    hide Occurs;
    if m :| m in list && Occurs(m, s) {
      var k :| 0 <= k < 11 && list[k] == m;
    }
  }

  lemma BoilerplateIff(p: string)
    ensures IsBoilerplate(p) <==> NamesBoilerplate(p)
  {
    hide Occurs, Lower, BOILERPLATE;
    ElevenPhrases();
    OneOfEleven(BOILERPLATE, Lower(p));
  }

  /** A part worth looking at: more than thirty characters without the whitespace at its ends. */
  predicate Long(part: string) {
    |Strip(part)| > 30
  }

  /** `result` are the parts at the given places, stripped; the places rise and are those from p on that fit. */
  ghost predicate PartsFrom(
    parts: seq<string>, p: nat, result: seq<string>, places: seq<nat>, fits: string -> bool)
  {
    && |places| == |result|
    && (forall a | 0 <= a < |places| :: p <= places[a] < |parts| && result[a] == Strip(parts[places[a]]))
    && (forall a, b | 0 <= a < b < |places| :: places[a] < places[b])
    && (forall i | p <= i < |parts| :: i in places <==> fits(parts[i]))
  }

  ghost predicate PartsAt(parts: seq<string>, result: seq<string>, places: seq<nat>, fits: string -> bool) {
    PartsFrom(parts, 0, result, places, fits)
  }

  /** One part in front: it joins the result if it fits. */
  lemma PartsAtFront(parts: seq<string>, p: nat, result: seq<string>, places: seq<nat>, fits: string -> bool)
    requires p < |parts| && PartsFrom(parts, p + 1, result, places, fits)
    ensures fits(parts[p]) ==> PartsFrom(parts, p, [Strip(parts[p])] + result, [p] + places, fits)
    ensures !fits(parts[p]) ==> PartsFrom(parts, p, result, places, fits)
  {
    hide Strip;
  }

  lemma LongFront(parts: seq<string>, p: nat)
    requires p < |parts|
    ensures LongParts(parts[p..]) == (if Long(parts[p]) then [Strip(parts[p])] else []) + LongParts(parts[p + 1..])
  {
    hide Strip;
    assert parts[p..][1..] == parts[p + 1..];
  }

  lemma {:induction false} LongAt(parts: seq<string>, p: nat) returns (places: seq<nat>)
    requires p <= |parts|
    ensures PartsFrom(parts, p, LongParts(parts[p..]), places, Long)
    decreases |parts| - p
  {
    if p == |parts| {
      places := [];
    } else {
      hide PartsFrom, LongParts;
      places := LongAt(parts, p + 1);
      var rest := LongParts(parts[p + 1..]);
      PartsAtFront(parts, p, rest, places, Long);
      LongFront(parts, p);
      assert [] + rest == rest;
      places := if Long(parts[p]) then [p] + places else places;
    }
  }

  predicate Worthy(part: string) {
    Long(part) && !NamesBoilerplate(Strip(part))
  }

  lemma UsefulFirst(p: string, rest: seq<string>)
    ensures Useful([p] + rest) == (if NamesBoilerplate(p) then [] else [p]) + Useful(rest)
  {
    BoilerplateIff(p);
    assert ([p] + rest)[1..] == rest;
  }

  lemma {:induction false} UsefulAt(parts: seq<string>, p: nat) returns (places: seq<nat>)
    requires p <= |parts|
    ensures PartsFrom(parts, p, Useful(LongParts(parts[p..])), places, Worthy)
    decreases |parts| - p
  {
    if p == |parts| {
      places := [];
    } else {
      hide PartsFrom, NamesBoilerplate, Useful, LongParts;
      places := UsefulAt(parts, p + 1);
      var rest := LongParts(parts[p + 1..]);
      PartsAtFront(parts, p, Useful(rest), places, Worthy);
      LongFront(parts, p);
      UsefulFirst(Strip(parts[p]), rest);
      assert [] + rest == rest && [] + Useful(rest) == Useful(rest);
      places := if Worthy(parts[p]) then [p] + places else places;
    }
  }

  lemma SomeFits(parts: seq<string>, result: seq<string>, places: seq<nat>, fits: string -> bool) returns (i: nat)
    requires PartsAt(parts, result, places, fits) && result != []
    ensures i < |parts| && fits(parts[i])
  {
    i := places[0];
    assert i in places;
  }

  /** The candidates are, in order, the stripped long parts that name none of the phrases; or all long parts, if every
      one of them does. */
  lemma CandidatesAre(cleaned: string) returns (places: seq<nat>)
    ensures var parts := Split(cleaned);
            if exists i | 0 <= i < |parts| :: Worthy(parts[i])
            then PartsAt(parts, Candidates(cleaned), places, Worthy)
            else PartsAt(parts, Candidates(cleaned), places, Long)
  {
    hide Worthy, Long, Strip, LongParts, Useful, Split;
    var parts := Split(cleaned);
    assert parts[0..] == parts;
    places := UsefulAt(parts, 0);
    if Useful(LongParts(parts)) != [] {
      var i := SomeFits(parts, Useful(LongParts(parts)), places, Worthy);
    } else {
      assert forall i | 0 <= i < |parts| :: i !in places;
      places := LongAt(parts, 0);
    }
  }

  // ---------------------------------------------------------------------------
  // Ranks
  // ---------------------------------------------------------------------------

  /** How many of the query's words a paragraph has. */
  function Has(words: set<string>, p: string): nat {
    |set w | w in words && Occurs(w, Lower(p))|
  }

  /** Paragraph i comes before paragraph j in the ranking. */
  ghost predicate RanksAhead(words: set<string>, paragraphs: seq<string>, i: nat, j: nat) {
    var order := Ranking(Scores(words, paragraphs));
    exists a, b | 0 <= a < b < |order| :: order[a] == i && order[b] == j
  }

  lemma AheadIffHigher(words: set<string>, paragraphs: seq<string>, i: nat, j: nat)
    requires i < |paragraphs| && j < |paragraphs|
    ensures RanksAhead(words, paragraphs, i, j) <==> Before(Scores(words, paragraphs), i, j)
  {
    hide Ranking, Scores, Before;
    var keys := Scores(words, paragraphs);
    var order := Ranking(keys);
    var a := PlaceOf(order, i);
    var b := PlaceOf(order, j);
    if Before(keys, i, j) {
      NotBoth(keys, i, j);
    }
    if RanksAhead(words, paragraphs, i, j) {
      var c, d :| 0 <= c < d < |order| && order[c] == i && order[d] == j;
    }
  }

  lemma NotBoth(keys: seq<int>, i: nat, j: nat)
    requires i < |keys| && j < |keys| && Before(keys, i, j)
    ensures i != j && !Before(keys, j, i)
  {
  }

  lemma ScoreIs(words: set<string>, i: nat, p: string)
    ensures Score(words, i, p) == 3 * Has(words, p) + if i < 5 then 5 - i else 0
  {
  }

  /** What counts is the query's words, and then the place in the text: two words more always win, one word more loses
      only to one of the first three paragraphs from three or more places behind it, and with equally many the earlier
      paragraph wins. */
  lemma WhoRanksAhead(words: set<string>, paragraphs: seq<string>, i: nat, j: nat)
    requires i < |paragraphs| && j < |paragraphs|
    ensures Has(words, paragraphs[i]) >= Has(words, paragraphs[j]) + 2 ==> RanksAhead(words, paragraphs, i, j)
    ensures Has(words, paragraphs[i]) == Has(words, paragraphs[j]) + 1 ==>
              (RanksAhead(words, paragraphs, i, j) <==> i <= j + 2 || j >= 3)
    ensures Has(words, paragraphs[i]) == Has(words, paragraphs[j]) ==>
              (RanksAhead(words, paragraphs, i, j) <==> i < j)
  {
    hide RanksAhead, Has, Score;
    AheadIffHigher(words, paragraphs, i, j);
    ScoreIs(words, i, paragraphs[i]);
    ScoreIs(words, j, paragraphs[j]);
  }

  // ---------------------------------------------------------------------------
  // The cut
  // ---------------------------------------------------------------------------

  /** A text that is cut keeps its first `max` characters, or ends before the last blank line among them, if that
      begins behind four fifths of them. */
  lemma WhereItIsCut(cleaned: string, max: nat)
    requires |cleaned| > max
    ensures var cut, r := cleaned[..max], Truncated(cleaned, max);
            && r <= cut
            && (r == cut <==> forall k | BreakAt(cut, k) :: k as real <= 0.8 * max as real)
            && (r != cut ==> BreakAt(cut, |r|) && forall k | BreakAt(cut, k) :: k <= |r|)
  {
    var cut := cleaned[..max];
    UptoIsASlice(cleaned, max);
    LastBreakIsLast(cut);
    hide LastBreak, BreakAt;
    var last := LastBreak(cut);
    if 5 * last > 4 * max {
      UptoIsASlice(cut, last);
      BreakInside(cut, last);
    }
  }

  lemma BreakInside(s: string, k: int)
    requires BreakAt(s, k)
    ensures 0 <= k < |s|
  {
  }
}

/**
 `compress_source_text` (core/research/optimizer.py) from the normalised text on:
 a greedy choice of paragraphs under a length budget, kept in their old order.
 */
module Compress {
  import opened Text
  import opened Selection
  import opened StableOrder

  const BOILERPLATE := [
    "accept cookies", "cookie policy", "privacy policy", "terms of service", "all rights reserved",
    "sign up for our newsletter", "subscribe now", "advertisement",
    "share on twitter", "share on facebook", "share on linkedin"]

  predicate IsBoilerplate(p: string) {
    exists m | m in BOILERPLATE :: Occurs(m, Lower(p))
  }

  /** The stripped parts longer than 30 characters. */
  function LongParts(parts: seq<string>): seq<string> {
    if parts == [] then []
    else (if |Strip(parts[0])| > 30 then [Strip(parts[0])] else []) + LongParts(parts[1..])
  }

  function Useful(paragraphs: seq<string>): (r: seq<string>)
    ensures |r| <= |paragraphs|
  {
    if paragraphs == [] then []
    else (if IsBoilerplate(paragraphs[0]) then [] else [paragraphs[0]]) + Useful(paragraphs[1..])
  }

  /** The candidates of the ranked branch: with all of them boilerplate, all of them. */
  function Candidates(cleaned: string): seq<string> {
    var raw := LongParts(Split(cleaned));
    if Useful(raw) == [] then raw else Useful(raw)
  }

  function Score(words: set<string>, i: nat, p: string): int {
    3 * |set w | w in words && Occurs(w, Lower(p))| + if 5 - i > 0 then 5 - i else 0
  }

  function Scores(words: set<string>, paragraphs: seq<string>): (r: seq<int>)
    ensures |r| == |paragraphs| && forall i | 0 <= i < |r| :: r[i] == Score(words, i, paragraphs[i])
  {
    if paragraphs == [] then []
    else
      var n := |paragraphs| - 1;
      Scores(words, paragraphs[..n]) + [Score(words, n, paragraphs[n])]
  }

  /** The part of a choice that ranks before place k. */
  function Ahead(chosen: set<nat>, order: seq<nat>, k: nat): set<nat>
    requires k <= |order|
  {
    set i | i in chosen && i in order[..k]
  }

  /** Greedy: a paragraph is chosen exactly if it fits behind the chosen ones that rank before it. */
  ghost predicate Greedy(paragraphs: seq<string>, order: seq<nat>, chosen: set<nat>, max: int, n: nat)
    requires n <= |order| && forall a | 0 <= a < |order| :: order[a] < |paragraphs|
  {
    forall k | 0 <= k < n ::
      order[k] in chosen <==> Cost(paragraphs, Ahead(chosen, order, k), 2) + |paragraphs[order[k]]| + 2 <= max
  }

  // ---------------------------------------------------------------------------
  // Lengths
  // ---------------------------------------------------------------------------

  lemma JoinHead(p: string, rest: seq<string>)
    ensures |Join([p] + rest)| == |p| + if rest == [] then 0 else 2 + |Join(rest)|
  {
    assert ([p] + rest)[1..] == rest;
  }

  /** Stripping and dropping parts never makes the joined text longer. */
  lemma {:induction false} DroppingShortens(parts: seq<string>)
    ensures LongParts(parts) != [] ==> parts != [] && |Join(LongParts(parts))| <= |Join(parts)|
  {
    if parts != [] {
      DroppingShortens(parts[1..]);
      assert parts == [parts[0]] + parts[1..];
      JoinHead(parts[0], parts[1..]);
      JoinHead(Strip(parts[0]), LongParts(parts[1..]));
      assert [] + LongParts(parts[1..]) == LongParts(parts[1..]);
    }
  }

  lemma {:induction false} UsefulShortens(parts: seq<string>)
    ensures Useful(parts) != [] ==> parts != [] && |Join(Useful(parts))| <= |Join(parts)|
  {
    if parts != [] {
      hide IsBoilerplate;
      UsefulShortens(parts[1..]);
      assert parts == [parts[0]] + parts[1..];
      JoinHead(parts[0], parts[1..]);
      JoinHead(parts[0], Useful(parts[1..]));
      assert [] + Useful(parts[1..]) == Useful(parts[1..]);
    }
  }

  /** In the short branch the filtered text is never longer than the text: its own truncation is unreachable. */
  lemma FilteredFits(cleaned: string)
    ensures var filtered := Useful(LongParts(Split(cleaned)));
            filtered != [] ==> |Join(filtered)| <= |cleaned|
  {
    SplitThenJoin(cleaned);
    DroppingShortens(Split(cleaned));
    UsefulShortens(LongParts(Split(cleaned)));
  }

  // ---------------------------------------------------------------------------
  // The choice
  // ---------------------------------------------------------------------------

  /** The loop over the ranking. */
  method Choose(paragraphs: seq<string>, order: seq<nat>, max: int) returns (chosen: set<nat>)
    requires forall a | 0 <= a < |order| :: order[a] < |paragraphs|
    requires forall a, b | 0 <= a < b < |order| :: order[a] != order[b]
    ensures Greedy(paragraphs, order, chosen, max, |order|)
    ensures forall i | i in chosen :: i in order
    ensures chosen != {} ==> Cost(paragraphs, chosen, 2) <= max
  {
    chosen := {};
    var total := 0;
    CostOfNone(paragraphs, 2);
    for k := 0 to |order|
      invariant total == Cost(paragraphs, chosen, 2)
      invariant forall i | i in chosen :: i in order[..k]
      invariant chosen != {} ==> total <= max
      invariant Greedy(paragraphs, order, chosen, max, k)
    {
      var p := paragraphs[order[k]];
      assert Ahead(chosen, order, k) == chosen;
      if total + |p| + 2 <= max {
        CostOfOneMore(paragraphs, chosen, order[k], 2);
        AheadStays(chosen, order, k);
        chosen := chosen + {order[k]};
        total := total + |p| + 2;
      }
    }
  }

  /** Choosing the one at place k changes nothing for the places up to it. */
  lemma AheadStays(chosen: set<nat>, order: seq<nat>, k: nat)
    requires k < |order| && forall a, b | 0 <= a < b < |order| :: order[a] != order[b]
    ensures forall j | 0 <= j <= k :: Ahead(chosen + {order[k]}, order, j) == Ahead(chosen, order, j)
  {
  }

  /** The ranking leaves no freedom: there is one greedy choice. */
  lemma {:induction false} GreedyIsUnique(paragraphs: seq<string>, order: seq<nat>, a: set<nat>, b: set<nat>,
      max: int, n: nat)
    requires n <= |order| && forall x | 0 <= x < |order| :: order[x] < |paragraphs|
    requires Greedy(paragraphs, order, a, max, n) && Greedy(paragraphs, order, b, max, n)
    ensures Ahead(a, order, n) == Ahead(b, order, n)
  {
    if n > 0 {
      GreedyIsUnique(paragraphs, order, a, b, max, n - 1);
      assert order[..n] == order[..n - 1] + [order[n - 1]];
      assert order[n - 1] in a <==> order[n - 1] in b;
      forall i ensures i in Ahead(a, order, n) <==> i in Ahead(b, order, n) {
        assert i in Ahead(a, order, n - 1) <==> i in Ahead(b, order, n - 1);
      }
    }
  }

  // ---------------------------------------------------------------------------
  // The whole function
  // ---------------------------------------------------------------------------

  /** Cut to `max`, and back to the last blank line if that lies in the last fifth. */
  function Truncated(cleaned: string, max: int): (r: string)
    ensures max >= 0 ==> |r| <= max
  {
    var cut := Upto(cleaned, max);
    var last := LastBreak(cut);
    if 5 * last > 4 * max then Upto(cut, last) else cut
  }

  /** Which of the three results it is. */
  ghost predicate Compressed(cleaned: string, words: set<string>, max: int, chosen: set<nat>, r: string) {
    if |cleaned| <= max then
      r == if Useful(LongParts(Split(cleaned))) == [] then cleaned else Join(Useful(LongParts(Split(cleaned))))
    else
      var paragraphs := Candidates(cleaned);
      var order := Ranking(Scores(words, paragraphs));
      && Greedy(paragraphs, order, chosen, max, |order|)
      && (forall i | i in chosen :: i < |paragraphs|)
      && r == if chosen == {} then Truncated(cleaned, max) else Join(Pick(paragraphs, chosen))
  }

  method CompressSourceText(cleaned: string, query: string, max: int) returns (r: string, ghost chosen: set<nat>)
    ensures Compressed(cleaned, Words(Lower(query)), max, chosen, r)
    ensures |r| <= max <==> max >= 0
  {
    chosen := {};
    if |cleaned| <= max {
      var filtered := Useful(LongParts(Split(cleaned)));
      FilteredFits(cleaned);
      if filtered != [] {
        return Join(filtered), {};
      }
      return cleaned, {};
    }
    var paragraphs := Candidates(cleaned);
    var order := Ranking(Scores(Words(Lower(query)), paragraphs));
    var selected := Choose(paragraphs, order, max);
    chosen := selected;
    if selected == {} {
      r := Truncated(cleaned, max);
    } else {
      r := Join(Pick(paragraphs, selected));
      PickLength(paragraphs, selected);
    }
  }

  // ---------------------------------------------------------------------------
  // Room left over
  // ---------------------------------------------------------------------------

  /** `total_len` before place k of the ranking. */
  function RunningTotal(paragraphs: seq<string>, order: seq<nat>, max: int, k: nat): nat
    requires k <= |order| && forall a | 0 <= a < |order| :: order[a] < |paragraphs|
  {
    if k == 0 then 0
    else
      var total, p := RunningTotal(paragraphs, order, max, k - 1), paragraphs[order[k - 1]];
      if total + |p| + 2 <= max then total + |p| + 2 else total
  }

  lemma AheadOneMore(chosen: set<nat>, order: seq<nat>, k: nat)
    requires k < |order|
    ensures Ahead(chosen, order, k + 1) == Ahead(chosen, order, k) + if order[k] in chosen then {order[k]} else {}
  {
    assert order[..k + 1] == order[..k] + [order[k]];
  }

  lemma {:induction false} TotalIsCost(paragraphs: seq<string>, order: seq<nat>, chosen: set<nat>, max: int, k: nat)
    requires k <= |order| && forall a | 0 <= a < |order| :: order[a] < |paragraphs|
    requires forall a, b | 0 <= a < b < |order| :: order[a] != order[b]
    requires Greedy(paragraphs, order, chosen, max, |order|)
    ensures RunningTotal(paragraphs, order, max, k) == Cost(paragraphs, Ahead(chosen, order, k), 2)
  {
    hide Cost;
    if k == 0 {
      assert Ahead(chosen, order, 0) == {};
      CostOfNone(paragraphs, 2);
    } else {
      TotalIsCost(paragraphs, order, chosen, max, k - 1);
      AheadOneMore(chosen, order, k - 1);
      if order[k - 1] in chosen {
        CostOfOneMore(paragraphs, Ahead(chosen, order, k - 1), order[k - 1], 2);
      } else {
        assert Ahead(chosen, order, k) == Ahead(chosen, order, k - 1);
      }
    }
  }

  /** A total that grows grows by a separator at least. */
  lemma {:induction false} TotalGrows(paragraphs: seq<string>, order: seq<nat>, max: int, j: nat, k: nat)
    requires j <= k <= |order| && forall a | 0 <= a < |order| :: order[a] < |paragraphs|
    ensures var early, late := RunningTotal(paragraphs, order, max, j), RunningTotal(paragraphs, order, max, k);
            late == early || late >= early + 2
  {
    if j < k {
      TotalGrows(paragraphs, order, max, j, k - 1);
    }
  }

  /** What the chosen paragraphs use up for one more: their text and a separator. */
  function UsedBy(chosen: set<nat>, r: string): nat {
    if chosen == {} then 0 else |r| + 2
  }

  ghost predicate Ranked(paragraphs: seq<string>, words: set<string>, order: seq<nat>) {
    && order == Ranking(Scores(words, paragraphs))
    && (forall a | 0 <= a < |order| :: order[a] < |paragraphs|)
    && (forall a, b | 0 <= a < b < |order| :: order[a] != order[b])
    && (forall i :: i in order <==> 0 <= i < |paragraphs|)
  }

  lemma RankedIsRanking(paragraphs: seq<string>, words: set<string>)
    ensures Ranked(paragraphs, words, Ranking(Scores(words, paragraphs)))
  {
    Distinct(Scores(words, paragraphs), Ranking(Scores(words, paragraphs)));
  }

  lemma {:induction false} UsedIsTotal(cleaned: string, words: set<string>, max: int, chosen: set<nat>, r: string)
    requires Compressed(cleaned, words, max, chosen, r) && |cleaned| > max
    ensures var paragraphs := Candidates(cleaned);
            var order := Ranking(Scores(words, paragraphs));
            Ranked(paragraphs, words, order) && UsedBy(chosen, r) == RunningTotal(paragraphs, order, max, |order|)
  {
    hide Candidates, Scores, Truncated, Pick, Join, Cost;
    var paragraphs := Candidates(cleaned);
    var order := Ranking(Scores(words, paragraphs));
    RankedIsRanking(paragraphs, words);
    TotalIsCost(paragraphs, order, chosen, max, |order|);
    assert order[..|order|] == order && Ahead(chosen, order, |order|) == chosen;
    PickLength(paragraphs, chosen);
    if chosen == {} {
      CostOfNone(paragraphs, 2);
    } else {
      var c :| c in chosen;
      SomePicked(paragraphs, chosen, c);
    }
  }

  /** In the ranked branch a paragraph left out leaves at most one character of room beside the others, if it fits at
      all. */
  lemma {:induction false} HardlyFits(cleaned: string, words: set<string>, max: int, chosen: set<nat>, r: string,
      i: nat)
    requires Compressed(cleaned, words, max, chosen, r) && |cleaned| > max
    requires i < |Candidates(cleaned)| && i !in chosen
    ensures UsedBy(chosen, r) + |Candidates(cleaned)[i]| > max - 2
  {
    hide Candidates, Scores, Truncated, Pick, Join, Cost, RunningTotal;
    var paragraphs := Candidates(cleaned);
    var order := Ranking(Scores(words, paragraphs));
    UsedIsTotal(cleaned, words, max, chosen, r);
    var k := PlaceOf(order, i);
    TotalIsCost(paragraphs, order, chosen, max, k);
    TotalGrows(paragraphs, order, max, k, |order|);
  }

  lemma PlaceOf(order: seq<nat>, i: nat) returns (k: nat)
    requires i in order
    ensures k < |order| && order[k] == i
  {
    k :| 0 <= k < |order| && order[k] == i;
  }

  /** Paragraph i is left out although it would fit beside the chosen ones. */
  ghost predicate StillFits(cleaned: string, max: int, chosen: set<nat>, r: string, i: nat) {
    i < |Candidates(cleaned)| && i !in chosen && UsedBy(chosen, r) + |Candidates(cleaned)[i]| <= max
  }

  /** The paragraph at place k of the ranking brings the running total up to the limit or just below, without the
      separator the loop adds, and the total does not grow from there on. */
  predicate Gap(paragraphs: seq<string>, order: seq<nat>, max: int, k: nat)
    requires k < |order| && forall a | 0 <= a < |order| :: order[a] < |paragraphs|
  {
    var total := RunningTotal(paragraphs, order, max, k);
    max - 1 <= total + |paragraphs[order[k]]| <= max && RunningTotal(paragraphs, order, max, |order|) == total
  }

  ghost predicate SomeGap(paragraphs: seq<string>, order: seq<nat>, max: int)
    requires forall a | 0 <= a < |order| :: order[a] < |paragraphs|
  {
    exists k | 0 <= k < |order| :: Gap(paragraphs, order, max, k)
  }

  /** The loop counts a separator more than the text will have, so the choice is not always maximal: some paragraph
      left out would still fit exactly if the running total meets such a gap. */
  lemma {:induction false} RoomLeftIff(cleaned: string, words: set<string>, max: int, chosen: set<nat>, r: string)
    requires Compressed(cleaned, words, max, chosen, r) && |cleaned| > max
    ensures (exists i :: StillFits(cleaned, max, chosen, r, i))
       <==> SomeGap(Candidates(cleaned), Ranking(Scores(words, Candidates(cleaned))), max)
  {
    hide Candidates, Scores, Truncated, Pick, Join, Cost, RunningTotal, UsedBy;
    var paragraphs := Candidates(cleaned);
    var order := Ranking(Scores(words, paragraphs));
    UsedIsTotal(cleaned, words, max, chosen, r);
    if i :| StillFits(cleaned, max, chosen, r, i) {
      var k := PlaceOf(order, i);
      TotalIsCost(paragraphs, order, chosen, max, k);
      TotalGrows(paragraphs, order, max, k, |order|);
      assert Gap(paragraphs, order, max, k);
    }
    if SomeGap(paragraphs, order, max) {
      var k :| 0 <= k < |order| && Gap(paragraphs, order, max, k);
      TotalIsCost(paragraphs, order, chosen, max, k);
      assert StillFits(cleaned, max, chosen, r, order[k]);
    }
  }

  /** A text without a blank line is cut at the first one put behind it. */
  lemma {:induction false} BreakAfter(p: string, q: string)
    requires !Occurs(BREAK, p) && (p != "" ==> p[|p| - 1] != '\n')
    ensures FirstBreak(p + BREAK + q) == |p|
  {
    var s := p + BREAK + q;
    if p == "" {
      assert s == BREAK + q;
    } else {
      assert s[1..] == p[1..] + BREAK + q;
      BreakAfter(p[1..], q);
      assert s[0] == p[0] && (|p| > 1 ==> s[1] == p[1]);
      assert |p| > 1 && p[0] == '\n' && p[1] == '\n' ==> BREAK <= p;
    }
  }

  lemma OneCandidate(p: string)
    requires |p| > 30 && Strip(p) == p && !Occurs(BREAK, p) && p[|p| - 1] != '\n'
    ensures Candidates(p + BREAK + "x") == [p]
  {
    hide IsBoilerplate, Strip;
    BreakAfter(p, "x");
    var cleaned := p + BREAK + "x";
    assert cleaned[..|p|] == p && cleaned[|p| + 2..] == "x";
    assert FirstBreak("x") == 1 && Split("x") == ["x"];
    assert Split(cleaned) == [p] + ["x"];
    assert |Strip("x")| <= 1;
    assert LongParts(["x"]) == [];
    assert ([p] + ["x"])[1..] == ["x"] && LongParts([p] + ["x"]) == [p];
    assert [p][1..] == [] && (Useful([p]) == [p] || Useful([p]) == []);
  }

  /** A lone paragraph of exactly the limit leaves a gap. */
  lemma {:induction false} LoneParagraph(p: string, words: set<string>)
    requires |p| > 30 && Strip(p) == p && !Occurs(BREAK, p) && p[|p| - 1] != '\n'
    ensures var cleaned := p + BREAK + "x";
            && Candidates(cleaned) == [p] && Compressed(cleaned, words, |p|, {}, Truncated(cleaned, |p|))
            && StillFits(cleaned, |p|, {}, Truncated(cleaned, |p|), 0)
  {
    var cleaned := p + BREAK + "x";
    OneCandidate(p);
    hide Candidates, Truncated, Scores;
    RankedIsRanking([p], words);
    var order := Ranking(Scores(words, [p]));
    assert order[0] in order;
    assert order == [0];
    assert Ahead({}, order, 0) == {};
    CostOfNone([p], 2);
  }

  /** Thirty-one characters, a blank line and one more under a limit of thirty-one: the paragraph would fit whole, but
      it is left out and the text is cut instead. */
  lemma {:induction false} WholeParagraphLeftOut(words: set<string>) returns (p: string)
    ensures |p| == 31
    ensures var cleaned := p + BREAK + "x";
            && Candidates(cleaned) == [p] && Compressed(cleaned, words, |p|, {}, Truncated(cleaned, |p|))
            && StillFits(cleaned, |p|, {}, Truncated(cleaned, |p|), 0)
  {
    p := seq(31, _ => 'a');
    forall i, j | 0 <= i && j == i + 2 <= |p| ensures p[i..j] != BREAK {
      assert p[i..j][0] == p[i];
    }
    if Occurs(BREAK, p) {
      var i := OccursWhere(BREAK, p);
    }
    LoneParagraph(p, words);
  }
}

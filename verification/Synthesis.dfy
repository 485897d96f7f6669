/**
 `SynthesizerAgent._findings_as_text` (core/research/agents/synthesizer.py): the
 newest findings that fit a character budget, in their old order.
 */
module Synthesis {
  import opened Text
  import opened Findings
  import opened Selection
  import opened StableOrder

  const MAX_SYNTHESIS_CHARS := 30000
  const NOTICE := "[Earlier findings truncated for context limit.]\n\n"

  /** A finding as it is shown, under the label of its place in the list. */
  function Block(f: Finding, i: nat): string {
    "[" + Decimal(i + 1) + "] " + f.url + "\n" +
    if f.evidence != "" || f.summary != "" then "Summary: " + f.summary + "\nEvidence: " + Upto(f.evidence, 300)
    else Upto(f.facts, 400)
  }

  function Blocks(findings: seq<Finding>): (r: seq<string>)
    ensures |r| == |findings| && forall i | 0 <= i < |r| :: r[i] == Block(findings[i], i)
  {
    if findings == [] then []
    else
      var n := |findings| - 1;
      Blocks(findings[..n]) + [Block(findings[n], n)]
  }

  function Rounds(findings: seq<Finding>): (r: seq<int>)
    ensures |r| == |findings| && forall i | 0 <= i < |r| :: r[i] == findings[i].round
  {
    if findings == [] then [] else Rounds(findings[..|findings| - 1]) + [findings[|findings| - 1].round]
  }

  /** The first n indices of an order. */
  function First(order: seq<nat>, n: nat): (r: set<nat>)
    requires n <= |order|
  {
    set i | i in order[..n]
  }

  lemma OneMore(order: seq<nat>, n: nat)
    requires n < |order|
    ensures First(order, n + 1) == First(order, n) + {order[n]}
  {
    assert order[..n + 1] == order[..n] + [order[n]];
  }

  /** The loop over the newest-first order: how many blocks fit before the first that does not. */
  method Select(blocks: seq<string>, order: seq<nat>) returns (n: nat, truncated: bool)
    requires forall a | 0 <= a < |order| :: order[a] < |blocks|
    requires forall a, b | 0 <= a < b < |order| :: order[a] != order[b]
    ensures n <= |order| && Cost(blocks, First(order, n), 0) <= MAX_SYNTHESIS_CHARS
    ensures truncated <==> n < |order|
    ensures truncated ==> Cost(blocks, First(order, n + 1), 0) > MAX_SYNTHESIS_CHARS
  {
    n, truncated := 0, false;
    var total := 0;
    CostOfNone(blocks, 0);
    assert First(order, 0) == {};
    while n < |order|
      invariant n <= |order| && total == Cost(blocks, First(order, n), 0) && total <= MAX_SYNTHESIS_CHARS && !truncated
    {
      var block := blocks[order[n]];
      OneMore(order, n);
      CostOfOneMore(blocks, First(order, n), order[n], 0);
      if total + |block| > MAX_SYNTHESIS_CHARS {
        truncated := true;
        return;
      }
      total := total + |block|;
      n := n + 1;
    }
  }

  /** What the text shows: the first n findings of the stable newest-round-first order, put back in list order;
      they fit the budget, and one more would not. */
  ghost predicate Shows(findings: seq<Finding>, n: nat, text: string) {
    var order, blocks := Ranking(Rounds(findings)), Blocks(findings);
    && n <= |findings|
    && Cost(blocks, First(order, n), 0) <= MAX_SYNTHESIS_CHARS
    && (n < |findings| ==> Cost(blocks, First(order, n + 1), 0) > MAX_SYNTHESIS_CHARS)
    && text == (if n < |findings| then NOTICE else "") + Join(Pick(blocks, First(order, n)))
  }

  method FindingsAsText(findings: seq<Finding>) returns (text: string)
    ensures exists n :: Shows(findings, n, text)
  {
    var order, blocks := Ranking(Rounds(findings)), Blocks(findings);
    Distinct(Rounds(findings), order);
    var count, truncated := Select(blocks, order);
    text := Join(Pick(blocks, First(order, count)));
    assert "" + text == text;
    if truncated {
      text := NOTICE + text;
    }
    assert Shows(findings, count, text);
  }

  // ---------------------------------------------------------------------------
  // What a reader gets
  // ---------------------------------------------------------------------------

  /** If a finding is shown, so is every finding of a later round, and of its own round every earlier one. */
  lemma {:induction false} NewestFirst(findings: seq<Finding>, n: nat, i: nat, j: nat)
    requires n <= |findings| && i < |findings| && j < |findings|
    requires i in First(Ranking(Rounds(findings)), n)
    requires findings[j].round > findings[i].round || (findings[j].round == findings[i].round && j < i)
    ensures j in First(Ranking(Rounds(findings)), n)
  {
    hide Ranking, Ordered, Rounds;
    var keys := Rounds(findings);
    var order := Ranking(keys);
    assert i in order[..n];
    assert j in order;
    assert Before(keys, j, i);
    PrefixClosed(keys, order, n, i, j);
  }

  /** What the shown blocks, the separators between them and the notice come to. */
  function Size(findings: seq<Finding>, n: nat): nat
    requires n <= |findings|
  {
    (if n < |findings| then |NOTICE| else 0) +
    (if n == 0 then 0 else Cost(Blocks(findings), First(Ranking(Rounds(findings)), n), 0) + 2 * (n - 1))
  }

  /** Exactly n blocks are shown, and separators and notice come on top of the budget: it is kept exactly if blocks,
      separators and notice together fit. */
  lemma {:induction false} TextLength(findings: seq<Finding>, n: nat, text: string)
    requires Shows(findings, n, text)
    ensures |Pick(Blocks(findings), First(Ranking(Rounds(findings)), n))| == n
    ensures |text| == Size(findings, n) <= MAX_SYNTHESIS_CHARS + 2 * n + |NOTICE|
    ensures |text| <= MAX_SYNTHESIS_CHARS <==> Size(findings, n) <= MAX_SYNTHESIS_CHARS
  {
    hide Ranking, Ordered, Cost, Pick, NOTICE;
    var order, blocks := Ranking(Rounds(findings)), Blocks(findings);
    Distinct(Rounds(findings), order);
    var places := PickKeepsOrder(blocks, First(order, n));
    assert forall i | i in order[..n] :: i in order;
    SameElements(order[..n], places);
    PickLength(blocks, First(order, n));
    PadCounts(blocks, First(order, n));
  }

  /** The findings determine how many are shown, and the text. */
  lemma {:induction false} ShowsOne(findings: seq<Finding>, n: nat, text: string, m: nat, other: string)
    requires Shows(findings, n, text) && Shows(findings, m, other)
    ensures n == m && text == other
  {
    hide Ranking, Ordered, Cost, Pick, Join;
    var order := Ranking(Rounds(findings));
    if n < m {
      assert First(order, n + 1) <= First(order, m);
      CostGrows(Blocks(findings), First(order, n + 1), First(order, m), 0);
    } else if m < n {
      assert First(order, m + 1) <= First(order, n);
      CostGrows(Blocks(findings), First(order, m + 1), First(order, n), 0);
    }
  }

  /** Two lists without repetition and with the same elements are equally long. */
  lemma {:induction false} SameElements(a: seq<nat>, b: seq<nat>)
    requires forall x, y | 0 <= x < y < |a| :: a[x] != a[y]
    requires forall x, y | 0 <= x < y < |b| :: b[x] != b[y]
    requires forall i :: i in a <==> i in b
    ensures |a| == |b|
  {
    SetSize(a);
    SetSize(b);
    assert a[..|a|] == a && b[..|b|] == b;
    assert First(a, |a|) == First(b, |b|);
  }

  lemma {:induction false} SetSize(a: seq<nat>)
    requires forall x, y | 0 <= x < y < |a| :: a[x] != a[y]
    ensures |First(a, |a|)| == |a|
  {
    if a != [] {
      var n := |a| - 1;
      SetSize(a[..n]);
      assert a[..n][..n] == a[..n];
      OneMore(a, n);
      assert a[n] !in First(a, n);
    }
  }

  /** Everything is shown exactly if everything fits. */
  lemma {:induction false} AllShown(findings: seq<Finding>, n: nat, text: string)
    requires Shows(findings, n, text)
    ensures n == |findings| <==>
              Cost(Blocks(findings), First(Ranking(Rounds(findings)), |findings|), 0) <= MAX_SYNTHESIS_CHARS
  {
    hide Ranking, Ordered, Cost, Pick, Join;
    var order := Ranking(Rounds(findings));
    if n < |findings| {
      assert First(order, n + 1) <= First(order, |findings|);
      CostGrows(Blocks(findings), First(order, n + 1), First(order, |findings|), 0);
    }
  }

  /** A finding whose address fills half the budget. */
  function Half(): Finding {
    Finding(seq(MAX_SYNTHESIS_CHARS / 2 - 5, _ => 'u'), "", "", "", "", 1)
  }

  lemma HalfFills(i: nat)
    requires i < 2
    ensures |Block(Half(), i)| == MAX_SYNTHESIS_CHARS / 2
  {
    assert |Decimal(i + 1)| == 1;
  }

  lemma {:induction false} CostOfBoth(blocks: seq<string>, chosen: set<nat>)
    requires |blocks| == 2 && chosen == {0, 1}
    ensures Cost(blocks, chosen, 0) == |blocks[0]| + |blocks[1]|
  {
    assert blocks[..1] == [blocks[0]] && blocks[..1][..0] == [];
    assert Cost([], chosen, 0) == 0;
    assert Cost(blocks[..1], chosen, 0) == |blocks[0]|;
  }

  /** Two findings that fill the budget between them: both are shown, and the separator is too much. */
  lemma {:induction false} BudgetPassed() returns (text: string)
    ensures Shows([Half(), Half()], 2, text) && |text| == MAX_SYNTHESIS_CHARS + 2
  {
    hide Ranking, Cost, Pick, Join, Half, Block, NOTICE;
    var findings := [Half(), Half()];
    var order, blocks := Ranking(Rounds(findings)), Blocks(findings);
    HalfFills(0);
    HalfFills(1);
    forall i ensures i in First(order, 2) <==> i in {0, 1} {
      assert order[..2] == order;
    }
    CostOfBoth(blocks, First(order, 2));
    text := Join(Pick(blocks, First(order, 2)));
    assert "" + text == text;
    TextLength(findings, 2, text);
  }
}

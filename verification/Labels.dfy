/**
 The labels under which the synthesizer shows its findings (core/research/agents/synthesizer.py), read by the
 citation verifier.
 */
module Labels {
  import opened Text
  import opened CitationText
  import opened Citations
  import opened Findings
  import opened Selection
  import opened StableOrder
  import opened Synthesis
  import opened Editor
  import opened Pipeline

  /** A finding is shown under its index: its block begins with a citation group of that one number, and the verifier
      keeps the citation exactly if the list has a finding at that place. */
  lemma LabelIsItsIndex(f: Finding, i: nat, count: nat)
    ensures Opens(Block(f, i)) && Inside(Block(f, i)) == Decimal(i + 1)
    ensures Keep(Numbers(Decimal(i + 1)), Indices(count)) == if i < count then [Decimal(i + 1)] else []
  {
    var d := Decimal(i + 1);
    var rest := Block(f, i)[|d| + 2..];
    assert Block(f, i) == "[" + d + "]" + rest;
    GroupAtHead(d, rest);
    NumberAlone(d);
    assert [d][..0] == [];
    if d in Indices(count) {
      var k :| 1 <= k <= count && Decimal(k) == d;
      DecimalInjective(k, i + 1);
    }
  }

  /** `shown` is the beginning of a text, `most` characters of it or all there are. */
  predicate Beginning(shown: string, text: string, most: nat) {
    shown <= text && |shown| == if |text| < most then |text| else most
  }

  /** A block gives label and address, then the whole summary and the beginning of the evidence; of a finding that has
      neither it gives the beginning of the facts. */
  lemma WhatIsShown(f: Finding, i: nat) returns (shown: string)
    ensures var head := "[" + Decimal(i + 1) + "] " + f.url + "\n";
            if f.evidence == "" && f.summary == ""
            then Block(f, i) == head + shown && Beginning(shown, f.facts, 400)
            else Block(f, i) == head + ("Summary: " + f.summary + "\nEvidence: " + shown)
                 && Beginning(shown, f.evidence, 300)
  {
    hide Decimal;
    shown := if f.evidence == "" && f.summary == "" then Upto(f.facts, 400) else Upto(f.evidence, 300);
  }

  /** The budget is thirty thousand characters: everything is shown exactly if the blocks come to no more, and the text
      is longer by at most two characters a finding and the forty-nine of the notice. */
  lemma ThirtyThousand(findings: seq<Finding>, n: nat, text: string)
    requires Shows(findings, n, text)
    ensures |text| <= 30000 + 2 * n + 49
    ensures n == |findings| <==> Cost(Blocks(findings), First(Ranking(Rounds(findings)), |findings|), 0) <= 30000
    ensures n < |findings| ==> "[Earlier findings truncated for context limit.]\n\n" <= text
  {
    hide Ranking, Ordered, Cost, Pick, Join;
    TextLength(findings, n, text);
    AllShown(findings, n, text);
  }
}

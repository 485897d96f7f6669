/** `deduplicate_findings` (core/research/optimizer.py), with exact rational similarity. */
module Dedup {
  import opened Text
  import opened Findings

  /** `_jaccard_similarity` */
  function Jaccard(a: set<string>, b: set<string>): (j: real)
    ensures 0.0 <= j <= 1.0
  {
    if a == {} || b == {} then 0.0
    else
      IntersectionSmaller(a, b);
      |a * b| as real / |a + b| as real
  }

  lemma IntersectionSmaller(a: set<string>, b: set<string>)
    requires a != {}
    ensures |a * b| <= |a + b| && |a + b| > 0
  {
    assert a * b <= a && a <= a + b;
    SubsetSmaller(a * b, a + b);
    SubsetSmaller({}, a + b);
    var x :| x in a;
    assert x in a + b;
  }

  lemma {:induction false} SubsetSmaller(a: set<string>, b: set<string>)
    requires a <= b
    ensures |a| <= |b|
  {
    if a != {} {
      var x :| x in a;
      SubsetSmaller(a - {x}, b - {x});
    }
  }

  lemma JaccardSymmetric(a: set<string>, b: set<string>)
    ensures Jaccard(a, b) == Jaccard(b, a)
  {
    assert a * b == b * a && a + b == b + a;
  }

  /** How many words two texts have in common, of how many they have together. */
  lemma JaccardCounts(a: set<string>, b: set<string>)
    requires a != {} && b != {}
    ensures Jaccard(a, b) * (|a| + |b| - |a * b|) as real == |a * b| as real
  {
    assert |a + b| == |a| + |b| - |a * b|;
  }

  lemma {:induction false} EquallyLarge(a: set<string>, b: set<string>)
    requires a <= b && |a| == |b|
    ensures a == b
  {
    if a != b {
      var x :| x in b && x !in a;
      SubsetSmaller(a + {x}, b);
    }
  }

  /** The same words are similarity 1, no word in common is 0, and nothing else is. */
  lemma JaccardEnds(a: set<string>, b: set<string>)
    ensures Jaccard(a, b) == 1.0 <==> a == b && a != {}
    ensures Jaccard(a, b) == 0.0 <==> a * b == {}
  {
    if a != {} && b != {} {
      IntersectionSmaller(a, b);
      if |a * b| == |a + b| {
        EquallyLarge(a * b, a + b);
        assert a == a * b == b;
      }
      if a == b {
        assert a * b == a + b;
      }
      if a * b != {} {
        var x :| x in a * b;
        SubsetSmaller({x}, a * b);
      }
    }
  }

  function WordsOf(f: Finding): set<string> {
    Words(Lower(f.facts + " " + f.summary))
  }

  lemma {:induction false} WordsOfBoth(run: string, a: string, b: string)
    ensures WordsAfter(run, a + (" " + b)) == WordsAfter(run, a) + Words(b)
    decreases |a|
  {
    if a == "" {
      assert a + (" " + b) == " " + b && (" " + b)[1..] == b;
    } else {
      assert (a + (" " + b))[1..] == a[1..] + (" " + b);
      WordsOfBoth(if IsWord(a[0]) then run + [a[0]] else "", a[1..], b);
    }
  }

  lemma LowerJoined(a: string, b: string)
    ensures Lower(a + " " + b) == Lower(a) + (" " + Lower(b))
  {
    hide Lower;
    var s := a + " " + b;
    forall i | 0 <= i < |s| ensures Lower(s)[i] == (Lower(a) + (" " + Lower(b)))[i] {
      assert i > |a| ==> s[i] == b[i - |a| - 1];
    }
  }

  /** The words of a finding are those of its facts and those of its summary, in lower case. */
  lemma WordsOfFinding(f: Finding)
    ensures WordsOf(f) == Words(Lower(f.facts)) + Words(Lower(f.summary))
  {
    hide WordsAfter, Lower;
    LowerJoined(f.facts, f.summary);
    WordsOfBoth("", Lower(f.facts), Lower(f.summary));
  }

  predicate Similar(f: Finding, g: Finding, threshold: real) {
    Jaccard(WordsOf(f), WordsOf(g)) >= threshold
  }

  ghost predicate Rising(kept: seq<nat>, n: nat) {
    && (forall a | 0 <= a < |kept| :: kept[a] < n)
    && forall a, b | 0 <= a < b < |kept| :: kept[a] < kept[b]
  }

  /** Finding i is dropped: it has no words, or an earlier kept one is similar. */
  ghost predicate Dropped(findings: seq<Finding>, threshold: real, kept: seq<nat>, i: nat)
    requires i < |findings| && Rising(kept, |findings|)
  {
    || WordsOf(findings[i]) == {}
    || exists a | 0 <= a < |kept| :: kept[a] < i && Similar(findings[i], findings[kept[a]], threshold)
  }

  /** The places kept of a list: all of a list of one or none, else exactly those with no reason to drop them. */
  ghost predicate Kept(findings: seq<Finding>, threshold: real, kept: seq<nat>) {
    && Rising(kept, |findings|)
    && forall i | 0 <= i < |findings| ::
         i !in kept <==> |findings| > 1 && Dropped(findings, threshold, kept, i)
  }

  function At(findings: seq<Finding>, kept: seq<nat>): (r: seq<Finding>)
    requires forall a | 0 <= a < |kept| :: kept[a] < |findings|
    ensures |r| == |kept| && forall a | 0 <= a < |kept| :: r[a] == findings[kept[a]]
  {
    if kept == [] then [] else At(findings, kept[..|kept| - 1]) + [findings[kept[|kept| - 1]]]
  }

  method AnySimilar(words: set<string>, seen: seq<set<string>>, threshold: real) returns (duplicate: bool)
    ensures duplicate <==> exists a | 0 <= a < |seen| :: Jaccard(words, seen[a]) >= threshold
  {
    duplicate := false;
    var a := 0;
    while a < |seen| && !duplicate
      invariant 0 <= a <= |seen|
      invariant duplicate <==> exists b | 0 <= b < a :: Jaccard(words, seen[b]) >= threshold
    {
      duplicate := Jaccard(words, seen[a]) >= threshold;
      a := a + 1;
    }
  }

  method DeduplicateFindings(findings: seq<Finding>, threshold: real) returns (unique: seq<Finding>)
    ensures exists kept :: Kept(findings, threshold, kept) && unique == At(findings, kept)
  {
    KeptInRange(findings, threshold);
    hide Jaccard, WordsOf, KeptBelow, Kept, At;
    if |findings| <= 1 {
      ShortList(findings, threshold);
      return findings;
    }
    unique := [];
    ghost var kept: seq<nat> := [];
    var seen: seq<set<string>> := [];
    NoneBelow(findings, threshold);
    for i := 0 to |findings|
      invariant KeptBelow(findings, threshold, kept, i) && Rising(kept, i) && unique == At(findings, kept)
      invariant |seen| == |kept| && forall a | 0 <= a < |kept| :: seen[a] == WordsOf(findings[kept[a]])
    {
      var words := WordsOf(findings[i]);
      var duplicate := AnySimilar(words, seen, threshold);
      ReasonToDrop(findings, threshold, kept, i, seen);
      Next(findings, threshold, kept, i);
      if words != {} {
        if !duplicate {
          AtAppends(findings, kept, i);
          unique, seen, kept := unique + [findings[i]], seen + [words], kept + [i];
        }
      }
    }
    AllSeen(findings, threshold, kept);
  }

  lemma KeptInRange(findings: seq<Finding>, threshold: real)
    ensures forall kept, a | Kept(findings, threshold, kept) && 0 <= a < |kept| :: kept[a] < |findings|
  {
  }

  /** The loop invariant: the rule followed up to finding n. */
  ghost predicate KeptBelow(findings: seq<Finding>, threshold: real, kept: seq<nat>, n: nat)
    requires n <= |findings|
  {
    && Rising(kept, n)
    && forall j | 0 <= j < n :: j !in kept <==> Dropped(findings, threshold, kept, j)
  }

  lemma NoneBelow(findings: seq<Finding>, threshold: real)
    ensures KeptBelow(findings, threshold, [], 0) && At(findings, []) == []
  {
  }

  lemma ShortList(findings: seq<Finding>, threshold: real)
    requires |findings| <= 1
    ensures var kept := if findings == [] then [] else [0];
            Kept(findings, threshold, kept) && At(findings, kept) == findings
  {
    hide Dropped, At;
    if findings != [] {
      var kept: seq<nat> := [0];
      assert Rising(kept, 1) && kept[0] == 0 && 0 in kept;
      assert Kept(findings, threshold, kept);
    }
  }

  lemma AtAppends(findings: seq<Finding>, kept: seq<nat>, i: nat)
    requires i < |findings| && forall a | 0 <= a < |kept| :: kept[a] < |findings|
    ensures At(findings, kept + [i]) == At(findings, kept) + [findings[i]]
  {
    assert (kept + [i])[..|kept|] == kept;
  }

  lemma AllSeen(findings: seq<Finding>, threshold: real, kept: seq<nat>)
    requires |findings| > 1 && KeptBelow(findings, threshold, kept, |findings|)
    ensures Kept(findings, threshold, kept)
  {
  }

  lemma Next(findings: seq<Finding>, threshold: real, kept: seq<nat>, i: nat)
    requires i < |findings| && KeptBelow(findings, threshold, kept, i)
    ensures Rising(kept, |findings|) && Rising(kept, i + 1) && Rising(kept + [i], i + 1)
    ensures KeptBelow(findings, threshold, if Dropped(findings, threshold, kept, i) then kept else kept + [i], i + 1)
  {
    KeepOneMore(findings, threshold, kept, i);
  }

  /** The loop's test is the reason to drop finding i. */
  lemma ReasonToDrop(findings: seq<Finding>, threshold: real, kept: seq<nat>, i: nat, seen: seq<set<string>>)
    requires i < |findings| && Rising(kept, i)
    requires |seen| == |kept| && forall a | 0 <= a < |kept| :: seen[a] == WordsOf(findings[kept[a]])
    ensures Rising(kept, |findings|)
    ensures Dropped(findings, threshold, kept, i) <==>
              || WordsOf(findings[i]) == {}
              || exists a | 0 <= a < |seen| :: Jaccard(WordsOf(findings[i]), seen[a]) >= threshold
  {
    hide Jaccard, WordsOf;
    forall a | 0 <= a < |seen|
      ensures Similar(findings[i], findings[kept[a]], threshold)
              <==> Jaccard(WordsOf(findings[i]), seen[a]) >= threshold {}
  }

  /** Keeping finding i gives no earlier one a new reason to be dropped. */
  lemma KeepOneMore(findings: seq<Finding>, threshold: real, kept: seq<nat>, i: nat)
    requires i < |findings| && Rising(kept, i)
    ensures Rising(kept + [i], i + 1)
    ensures forall j | 0 <= j <= i ::
              Dropped(findings, threshold, kept + [i], j) <==> Dropped(findings, threshold, kept, j)
    ensures forall j | 0 <= j <= i :: j in kept + [i] <==> j in kept || j == i
  {
    var more := kept + [i];
    forall j | 0 <= j <= i && Dropped(findings, threshold, kept, j) ensures Dropped(findings, threshold, more, j) {
      if WordsOf(findings[j]) != {} {
        var a :| 0 <= a < |kept| && kept[a] < j && Similar(findings[j], findings[kept[a]], threshold);
        assert more[a] == kept[a];
      }
    }
  }

  // ---------------------------------------------------------------------------
  // What a reader gets
  // ---------------------------------------------------------------------------

  /** Kept findings are pairwise below the threshold and have words. */
  lemma KeptAreApart(findings: seq<Finding>, threshold: real, kept: seq<nat>, a: nat, b: nat)
    requires Kept(findings, threshold, kept) && |findings| > 1 && a < |kept| && b < |kept| && a != b
    ensures WordsOf(findings[kept[a]]) != {} && !Similar(findings[kept[a]], findings[kept[b]], threshold)
  {
    assert kept[a] in kept && kept[b] in kept;
    assert !Dropped(findings, threshold, kept, kept[a]) && !Dropped(findings, threshold, kept, kept[b]);
    JaccardSymmetric(WordsOf(findings[kept[a]]), WordsOf(findings[kept[b]]));
  }

  lemma KeptExactly(findings: seq<Finding>, threshold: real, kept: seq<nat>, i: nat)
    requires Kept(findings, threshold, kept) && i < |findings|
    ensures Rising(kept, |findings|)
    ensures i !in kept <==> |findings| > 1 && Dropped(findings, threshold, kept, i)
  {
  }

  /** Only one choice of places fits the rule. */
  lemma {:induction false} KeptIsUnique(findings: seq<Finding>, threshold: real, kept: seq<nat>, other: seq<nat>,
      n: nat)
    requires Kept(findings, threshold, kept) && Kept(findings, threshold, other) && n <= |findings|
    ensures forall i | 0 <= i < n :: i in kept <==> i in other
  {
    hide Kept, Rising, Dropped;
    if n > 0 {
      KeptIsUnique(findings, threshold, kept, other, n - 1);
      KeptExactly(findings, threshold, kept, n - 1);
      KeptExactly(findings, threshold, other, n - 1);
      SameReasons(findings, threshold, kept, other, n - 1);
      SameReasons(findings, threshold, other, kept, n - 1);
    }
  }

  lemma SameReasons(findings: seq<Finding>, threshold: real, kept: seq<nat>, other: seq<nat>, i: nat)
    requires Rising(kept, |findings|) && Rising(other, |findings|) && i < |findings|
    requires forall j | 0 <= j < i :: j in kept ==> j in other
    ensures Dropped(findings, threshold, kept, i) ==> Dropped(findings, threshold, other, i)
  {
    if Dropped(findings, threshold, kept, i) && WordsOf(findings[i]) != {} {
      var a :| 0 <= a < |kept| && kept[a] < i && Similar(findings[i], findings[kept[a]], threshold);
      assert kept[a] in kept;
      assert kept[a] in other;
      var b :| 0 <= b < |other| && other[b] == kept[a];
    }
  }

  /** A rising list of places that leaves none out is the list of all places. */
  lemma {:induction false} AllPlaces(kept: seq<nat>, n: nat)
    requires Rising(kept, n) && forall i | 0 <= i < n :: i in kept
    ensures |kept| == n && forall a | 0 <= a < n :: kept[a] == a
  {
    if kept == [] {
      assert n > 0 ==> 0 in kept;
    } else {
      var last := |kept| - 1;
      assert kept[last] < n;
      assert n - 1 in kept;
      var a :| 0 <= a < |kept| && kept[a] == n - 1;
      assert a == last;
      forall i | 0 <= i < n - 1 ensures i in kept[..last] {
        assert i in kept;
        var b :| 0 <= b < |kept| && kept[b] == i;
        assert kept[..last][b] == i;
      }
      AllPlaces(kept[..last], n - 1);
    }
  }

  /** Deduplicating again changes nothing, also where the list is down to one. */
  lemma Idempotent(findings: seq<Finding>, threshold: real, kept: seq<nat>, again: seq<nat>)
    requires Kept(findings, threshold, kept)
    requires Kept(At(findings, kept), threshold, again)
    ensures At(At(findings, kept), again) == At(findings, kept)
  {
    var unique := At(findings, kept);
    if |unique| > 1 {
      RisingLeads(kept, |findings|, |kept| - 1);
      forall i, b | 0 <= i < |unique| && 0 <= b < |again| && again[b] < i
        ensures WordsOf(unique[i]) != {} && !Similar(unique[i], unique[again[b]], threshold) {
        KeptAreApart(findings, threshold, kept, i, again[b]);
      }
      forall i | 0 <= i < |unique| ensures WordsOf(unique[i]) != {} {
        KeptAreApart(findings, threshold, kept, i, if i == 0 then 1 else 0);
      }
    }
    assert forall i | 0 <= i < |unique| :: i in again;
    AllPlaces(again, |unique|);
  }

  /** Label k + 1 of the deduplicated list is also the finding's place in the full citation list exactly when
      nothing before it was dropped. */
  lemma LabelMatchesCitation(findings: seq<Finding>, threshold: real, kept: seq<nat>, k: nat)
    requires Kept(findings, threshold, kept) && k < |kept|
    ensures k <= kept[k]
    ensures kept[k] == k <==> forall i | 0 <= i < kept[k] :: i in kept
  {
    RisingLeads(kept, |findings|, k);
    if kept[k] == k {
      forall i | 0 <= i < k ensures i in kept {
        RisingLeads(kept, |findings|, i);
        RisingGap(kept, |findings|, i, k);
      }
    } else if forall i | 0 <= i < kept[k] :: i in kept {
      forall i | 0 <= i < kept[k] ensures i in kept[..k] {
        assert i in kept;
        var a :| 0 <= a < |kept| && kept[a] == i;
        assert a < k;
        assert kept[..k][a] == i;
      }
      AllPlaces(kept[..k], kept[k]);
    }
  }

  lemma {:induction false} RisingLeads(kept: seq<nat>, n: nat, k: nat)
    requires Rising(kept, n) && k < |kept|
    ensures k <= kept[k]
  {
    if k > 0 {
      RisingLeads(kept, n, k - 1);
    }
  }

  lemma {:induction false} RisingGap(kept: seq<nat>, n: nat, i: nat, k: nat)
    requires Rising(kept, n) && i <= k < |kept|
    ensures kept[k] - kept[i] >= k - i
  {
    if i < k {
      RisingGap(kept, n, i, k - 1);
    }
  }

  lemma Reasons(findings: seq<Finding>, threshold: real, kept: seq<nat>, i: nat)
    requires Rising(kept, |findings|) && i < |findings|
    ensures Dropped(findings, threshold, kept, i) <==>
              || WordsOf(findings[i]) == {}
              || exists k | 0 <= k < i :: k in kept && Similar(findings[i], findings[k], threshold)
  {
    hide Jaccard, WordsOf;
    if a :| 0 <= a < |kept| && kept[a] < i && Similar(findings[i], findings[kept[a]], threshold) {
      assert kept[a] in kept;
    }
  }

  /** Of two findings with the same words the later is dropped, under any threshold up to 1. */
  lemma SameWordsDropped(findings: seq<Finding>, threshold: real, kept: seq<nat>, i: nat, j: nat)
    requires Kept(findings, threshold, kept) && threshold <= 1.0 && i < j < |findings|
    requires WordsOf(findings[i]) == WordsOf(findings[j])
    ensures j !in kept
  {
    hide Jaccard, WordsOf, Kept, Dropped, Rising;
    var w := WordsOf(findings[j]);
    KeptExactly(findings, threshold, kept, i);
    KeptExactly(findings, threshold, kept, j);
    Reasons(findings, threshold, kept, i);
    Reasons(findings, threshold, kept, j);
    JaccardEnds(w, w);
    if w != {} && i !in kept {
      var k :| 0 <= k < i && k in kept && Similar(findings[i], findings[k], threshold);
      assert Similar(findings[j], findings[k], threshold);
    } else if w != {} {
      assert Similar(findings[j], findings[i], threshold);
    }
  }

  /** Above 1 nothing is a duplicate: of two findings or more those with words stay. */
  lemma NothingDroppedAboveOne(findings: seq<Finding>, threshold: real, kept: seq<nat>, i: nat)
    requires Kept(findings, threshold, kept) && threshold > 1.0 && i < |findings| && |findings| > 1
    ensures i in kept <==> WordsOf(findings[i]) != {}
  {
    hide WordsOf;
    Reasons(findings, threshold, kept, i);
  }
}

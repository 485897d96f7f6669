/** A choice among a list of texts: what it costs, and the chosen ones joined in their old order. */
module Selection {
  import opened Text

  /** The chosen items in their old order. */
  function Pick(items: seq<string>, chosen: set<nat>): seq<string> {
    if items == [] then []
    else
      var n := |items| - 1;
      Pick(items[..n], chosen) + if n in chosen then [items[n]] else []
  }

  /** What a choice costs: its length and `pad` more for each item. */
  function Cost(items: seq<string>, chosen: set<nat>, pad: nat): nat {
    if items == [] then 0
    else
      var n := |items| - 1;
      Cost(items[..n], chosen, pad) + if n in chosen then |items[n]| + pad else 0
  }

  lemma {:induction false} CostOfOneMore(items: seq<string>, chosen: set<nat>, i: nat, pad: nat)
    requires i < |items| && i !in chosen
    ensures Cost(items, chosen + {i}, pad) == Cost(items, chosen, pad) + |items[i]| + pad
  {
    var n := |items| - 1;
    if i < n {
      CostOfOneMore(items[..n], chosen, i, pad);
    } else {
      CostOfOthers(items[..n], chosen, i, pad);
    }
  }

  lemma {:induction false} CostOfOthers(items: seq<string>, chosen: set<nat>, i: nat, pad: nat)
    requires i >= |items|
    ensures Cost(items, chosen + {i}, pad) == Cost(items, chosen, pad)
  {
    if items != [] {
      CostOfOthers(items[..|items| - 1], chosen, i, pad);
    }
  }

  lemma {:induction false} CostGrows(items: seq<string>, fewer: set<nat>, more: set<nat>, pad: nat)
    requires fewer <= more
    ensures Cost(items, fewer, pad) <= Cost(items, more, pad)
  {
    if items != [] {
      CostGrows(items[..|items| - 1], fewer, more, pad);
    }
  }

  lemma {:induction false} CostOfNone(items: seq<string>, pad: nat)
    ensures Cost(items, {}, pad) == 0
  {
    if items != [] {
      CostOfNone(items[..|items| - 1], pad);
    }
  }

  lemma {:induction false} JoinAppends(parts: seq<string>, p: string)
    requires parts != []
    ensures Join(parts + [p]) == Join(parts) + BREAK + p
  {
    if |parts| == 1 {
      assert (parts + [p])[1..] == [p];
    } else {
      assert (parts + [p])[1..] == parts[1..] + [p];
      JoinAppends(parts[1..], p);
      assert parts[0] + BREAK + (Join(parts[1..]) + BREAK + p) == parts[0] + BREAK + Join(parts[1..]) + BREAK + p;
    }
  }

  /** Joined with a break between two items, a choice is two shorter than its cost at two a piece. */
  lemma {:induction false} PickLength(items: seq<string>, chosen: set<nat>)
    ensures Pick(items, chosen) == [] ==> Cost(items, chosen, 2) == 0
    ensures Pick(items, chosen) != [] ==> |Join(Pick(items, chosen))| + 2 == Cost(items, chosen, 2)
  {
    if items != [] {
      var n := |items| - 1;
      PickLength(items[..n], chosen);
      if n in chosen {
        if Pick(items[..n], chosen) != [] {
          JoinAppends(Pick(items[..n], chosen), items[n]);
        } else {
          assert Pick(items, chosen) == [items[n]];
        }
      } else {
        assert Pick(items, chosen) == Pick(items[..n], chosen);
      }
    }
  }

  /** The chosen items are a subsequence: their places, in rising order. */
  lemma {:induction false} PickKeepsOrder(items: seq<string>, chosen: set<nat>) returns (places: seq<nat>)
    ensures |places| == |Pick(items, chosen)|
    ensures forall a | 0 <= a < |places| :: places[a] < |items| && Pick(items, chosen)[a] == items[places[a]]
    ensures forall a, b | 0 <= a < b < |places| :: places[a] < places[b]
    ensures forall i | 0 <= i < |items| :: i in places <==> i in chosen
  {
    places := [];
    if items != [] {
      var n := |items| - 1;
      places := PickKeepsOrder(items[..n], chosen);
      if n in chosen {
        places := places + [n];
      }
    }
  }

  lemma SomePicked(items: seq<string>, chosen: set<nat>, i: nat)
    requires i in chosen && i < |items|
    ensures Pick(items, chosen) != []
  {
    var places := PickKeepsOrder(items, chosen);
    assert i in places;
  }

  lemma {:induction false} PadCounts(items: seq<string>, chosen: set<nat>)
    ensures Cost(items, chosen, 2) == Cost(items, chosen, 0) + 2 * |Pick(items, chosen)|
  {
    if items != [] {
      PadCounts(items[..|items| - 1], chosen);
    }
  }
}

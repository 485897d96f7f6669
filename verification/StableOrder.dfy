/** Python's stable sort with `reverse=True`: indices by falling key, equal keys in their old order. */
module StableOrder {

  predicate Before(keys: seq<int>, i: nat, j: nat)
    requires i < |keys| && j < |keys|
  {
    keys[i] > keys[j] || (keys[i] == keys[j] && i < j)
  }

  ghost predicate Ordered(keys: seq<int>, order: seq<nat>) {
    && (forall a | 0 <= a < |order| :: order[a] < |keys|)
    && forall a, b | 0 <= a < b < |order| :: Before(keys, order[a], order[b])
  }

  /** Index n takes its place behind every earlier index of a key at least as high. */
  function Insert(keys: seq<int>, order: seq<nat>, n: nat): (r: seq<nat>)
    requires n < |keys| && forall a | 0 <= a < |order| :: order[a] < n
    requires Ordered(keys, order)
    ensures |r| == |order| + 1 && Ordered(keys, r)
    ensures forall i :: i in r <==> i == n || i in order
  {
    if order == [] || keys[order[0]] < keys[n] then [n] + order
    else
      var rest := Insert(keys, order[1..], n);
      assert order == [order[0]] + order[1..];
      assert forall i | i in rest :: Before(keys, order[0], i);
      [order[0]] + rest
  }

  lemma OrderedAfter(keys: seq<int>, order: seq<nat>, n: nat)
    requires n < |keys| && Ordered(keys[..n], order)
    ensures Ordered(keys, order)
  {
    forall a, b | 0 <= a < b < |order| ensures Before(keys, order[a], order[b]) {
      assert Before(keys[..n], order[a], order[b]);
    }
  }

  /** The stable ranking: every index once, each before those it beats. */
  function Ranking(keys: seq<int>): (order: seq<nat>)
    ensures |order| == |keys| && Ordered(keys, order)
    ensures forall i :: i in order <==> 0 <= i < |keys|
  {
    if keys == [] then []
    else
      var n := |keys| - 1;
      var order := Ranking(keys[..n]);
      OrderedAfter(keys, order, n);
      Insert(keys, order, n)
  }

  lemma Distinct(keys: seq<int>, order: seq<nat>)
    requires Ordered(keys, order)
    ensures forall a, b | 0 <= a < b < |order| :: order[a] != order[b]
  {
    forall a, b | 0 <= a < b < |order| ensures order[a] != order[b] {
      assert Before(keys, order[a], order[b]);
    }
  }

  /** Whatever beats an element of a prefix of the order is in the prefix too. */
  lemma PrefixClosed(keys: seq<int>, order: seq<nat>, n: nat, i: nat, j: nat)
    requires Ordered(keys, order) && n <= |order| && i in order[..n] && j in order
    requires i < |keys| && j < |keys| && Before(keys, j, i)
    ensures j in order[..n]
  {
    var a :| 0 <= a < n && order[a] == i;
    var b :| 0 <= b < |order| && order[b] == j;
    assert a < b ==> Before(keys, order[a], order[b]);
    assert order[..n][b] == j;
  }
}

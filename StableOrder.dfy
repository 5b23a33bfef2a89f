/**
 * Stable ascending sort by an integer key, and the 1-based position it gives each element.
 *
 * `Array.prototype.sort` with a numeric comparator is stable: elements with equal keys keep
 * their input order. So the sorted order of the indices 0..n-1 is the strict total order
 * `Before`: smaller key first, and on equal keys the smaller index first. The position an
 * element reaches is its `StableRank`: one more than the number of elements `Before` it.
 * Sorting descending by a key is sorting ascending by the negated key.
 */
module StableOrder {

  /** Index i comes before index j in a stable ascending sort of `keys`. */
  predicate Before(keys: seq<int>, i: int, j: int)
    requires 0 <= i < |keys| && 0 <= j < |keys|
  {
    keys[i] < keys[j] || (keys[i] == keys[j] && i < j)
  }

  /** Number of indices among 0..m-1 that come before index i. */
  function CountBefore(keys: seq<int>, i: nat, m: nat): (c: nat)
    requires i < |keys| && m <= |keys|
    ensures c <= m
    ensures i < m ==> c < m
  {
    if m == 0 then 0
    else CountBefore(keys, i, m - 1) + (if Before(keys, m - 1, i) then 1 else 0)
  }

  /** The 1-based position of index i once `keys` is stably sorted ascending. */
  function StableRank(keys: seq<int>, i: nat): (r: nat)
    requires i < |keys|
    ensures 1 <= r <= |keys|
  {
    1 + CountBefore(keys, i, |keys|)
  }

  /**
   * `order` lists the indices of `keys` in stably sorted order: every index exactly once,
   * each one `Before` all that follow it.
   */
  predicate IsStableOrder(keys: seq<int>, order: seq<nat>)
  {
    && |order| == |keys|
    && (forall p :: 0 <= p < |order| ==> order[p] < |keys|)
    && (forall i :: 0 <= i < |keys| ==> i in order)
    && (forall p, q :: 0 <= p < q < |order| ==> Before(keys, order[p], order[q]))
  }

  /**
   * The stable sort the app asks the JavaScript runtime for (`[...xs].sort(cmp)`), on the
   * indices of `keys`: an insertion sort that places each new index after every index whose
   * key is not larger.
   */
  method StableSortByKey(keys: seq<int>) returns (order: seq<nat>)
    ensures IsStableOrder(keys, order)
  {
    order := [];
    var i := 0;
    while i < |keys|
      invariant 0 <= i <= |keys|
      invariant |order| == i
      invariant forall p :: 0 <= p < |order| ==> order[p] < i
      invariant forall j :: 0 <= j < i ==> j in order
      invariant forall p, q :: 0 <= p < q < |order| ==> Before(keys, order[p], order[q])
    {
      order := InsertByKey(keys, order, i);
      i := i + 1;
    }
  }

  /**
   * One step of the insertion sort: index i, larger than every index already placed, goes
   * right after the last placed index whose key is not larger than its own.
   */
  method InsertByKey(keys: seq<int>, order: seq<nat>, i: nat) returns (next: seq<nat>)
    requires i < |keys| && |order| == i
    requires forall p :: 0 <= p < |order| ==> order[p] < i
    requires forall p, q :: 0 <= p < q < |order| ==> Before(keys, order[p], order[q])
    ensures |next| == i + 1
    ensures forall p :: 0 <= p < |next| ==> next[p] <= i
    ensures i in next && forall j :: j in order ==> j in next
    ensures forall p, q :: 0 <= p < q < |next| ==> Before(keys, next[p], next[q])
  {
    var pos := 0;
    while pos < |order| && keys[order[pos]] <= keys[i]
      invariant 0 <= pos <= |order|
      invariant forall p :: 0 <= p < pos ==> keys[order[p]] <= keys[i]
    {
      pos := pos + 1;
    }
    LargerAfter(keys, order, pos, i);
    next := order[..pos] + [i] + order[pos..];
    InsertKeepsOrder(keys, order, pos, i);
    InsertKeepsMembers(order, pos, i);
  }

  /** Past the insertion point every placed key is larger than key i. */
  lemma LargerAfter(keys: seq<int>, order: seq<nat>, pos: nat, i: nat)
    requires i < |keys| && pos <= |order|
    requires forall p :: 0 <= p < |order| ==> order[p] < i
    requires forall p, q :: 0 <= p < q < |order| ==> Before(keys, order[p], order[q])
    requires pos == |order| || keys[i] < keys[order[pos]]
    ensures forall q :: pos <= q < |order| ==> keys[i] < keys[order[q]]
  {
    forall q | pos < q < |order|
      ensures keys[i] < keys[order[q]]
    {
      assert Before(keys, order[pos], order[q]);
    }
  }

  /** Putting i between the smaller-or-equal keys and the larger ones keeps the order. */
  lemma InsertKeepsOrder(keys: seq<int>, order: seq<nat>, pos: nat, i: nat)
    requires i < |keys| && pos <= |order|
    requires forall p :: 0 <= p < |order| ==> order[p] < i
    requires forall p, q :: 0 <= p < q < |order| ==> Before(keys, order[p], order[q])
    requires forall p :: 0 <= p < pos ==> keys[order[p]] <= keys[i]
    requires forall q :: pos <= q < |order| ==> keys[i] < keys[order[q]]
    ensures var next := order[..pos] + [i] + order[pos..];
            forall p, q :: 0 <= p < q < |next| ==> Before(keys, next[p], next[q])
  {
    var next := order[..pos] + [i] + order[pos..];
    assert forall p :: 0 <= p < pos ==> next[p] == order[p];
    assert next[pos] == i;
    assert forall p :: pos < p < |next| ==> next[p] == order[p - 1];
  }

  /** The inserted sequence holds i, every index already placed, and nothing above i. */
  lemma InsertKeepsMembers(order: seq<nat>, pos: nat, i: nat)
    requires pos <= |order|
    requires forall p :: 0 <= p < |order| ==> order[p] < i
    ensures var next := order[..pos] + [i] + order[pos..];
            && |next| == |order| + 1
            && (forall p :: 0 <= p < |next| ==> next[p] <= i)
            && i in next && (forall j :: j in order ==> j in next)
  {
    var next := order[..pos] + [i] + order[pos..];
    assert next[pos] == i;
    forall j | j in order
      ensures j in next
    {
      var p :| 0 <= p < |order| && order[p] == j;
      if p < pos {
        assert next[p] == j;
      } else {
        assert next[p + 1] == j;
      }
    }
  }

  /** `Before` is transitive. */
  lemma BeforeTransitive(keys: seq<int>, i: nat, j: nat, k: nat)
    requires i < |keys| && j < |keys| && k < |keys|
    requires Before(keys, i, j) && Before(keys, j, k)
    ensures Before(keys, i, k)
  {
  }

  /**
   * Counting up to m: whatever comes before i also comes before j, and i itself counts for j
   * once it is below m.
   */
  lemma {:induction false} CountBeforeMonotone(keys: seq<int>, i: nat, j: nat, m: nat)
    requires i < |keys| && j < |keys| && m <= |keys|
    requires Before(keys, i, j)
    ensures CountBefore(keys, i, m) + (if i < m then 1 else 0) <= CountBefore(keys, j, m)
  {
    if m > 0 {
      CountBeforeMonotone(keys, i, j, m - 1);
      if Before(keys, m - 1, i) {
        BeforeTransitive(keys, m - 1, i, j);
      }
    }
  }

  /** Ranks follow `Before` exactly: a smaller rank if and only if earlier in the stable sort. */
  lemma StableRankOrder(keys: seq<int>, i: nat, j: nat)
    requires i < |keys| && j < |keys|
    ensures StableRank(keys, i) < StableRank(keys, j) <==> Before(keys, i, j)
  {
    if Before(keys, i, j) {
      CountBeforeMonotone(keys, i, j, |keys|);
    } else if i != j {
      CountBeforeMonotone(keys, j, i, |keys|);
    }
  }

  /** Distinct indices get distinct ranks. */
  lemma StableRankInjective(keys: seq<int>, i: nat, j: nat)
    requires i < |keys| && j < |keys| && i != j
    ensures StableRank(keys, i) != StableRank(keys, j)
  {
    StableRankOrder(keys, i, j);
    StableRankOrder(keys, j, i);
  }

  /** A strictly increasing sequence of n integers drawn from 1..n is 1, 2, ..., n. */
  lemma {:induction false} IncreasingInRangeIsIota(s: seq<int>, q: nat)
    requires forall p :: 0 <= p < |s| ==> 1 <= s[p] <= |s|
    requires forall p :: 0 < p < |s| ==> s[p - 1] < s[p]
    requires q < |s|
    ensures s[q] == q + 1
  {
    LowerBound(s, q);
    UpperBound(s, q);
  }

  lemma {:induction false} LowerBound(s: seq<int>, q: nat)
    requires forall p :: 0 <= p < |s| ==> 1 <= s[p]
    requires forall p :: 0 < p < |s| ==> s[p - 1] < s[p]
    requires q < |s|
    ensures s[q] >= q + 1
  {
    if q > 0 {
      LowerBound(s, q - 1);
    }
  }

  lemma {:induction false} UpperBound(s: seq<int>, q: nat)
    requires forall p :: 0 <= p < |s| ==> s[p] <= |s|
    requires forall p :: 0 < p < |s| ==> s[p - 1] < s[p]
    requires q < |s|
    ensures s[q] <= q + 1
    decreases |s| - q
  {
    if q < |s| - 1 {
      UpperBound(s, q + 1);
    }
  }

  /** In any stable sorted order of `keys`, the element at position q has rank q + 1. */
  lemma PositionIsStableRank(keys: seq<int>, order: seq<nat>, q: nat)
    requires IsStableOrder(keys, order)
    requires q < |order|
    ensures StableRank(keys, order[q]) == q + 1
  {
    var ranks := seq(|order|, p requires 0 <= p < |order| => StableRank(keys, order[p]));
    forall p | 0 < p < |ranks|
      ensures ranks[p - 1] < ranks[p]
    {
      StableRankOrder(keys, order[p - 1], order[p]);
    }
    IncreasingInRangeIsIota(ranks, q);
  }

  /** The set of values a sequence holds. */
  function Elements(s: seq<int>): set<int>
  {
    set p | 0 <= p < |s| :: s[p]
  }

  /** The elements of a sequence without repetitions form a set of the same size. */
  lemma {:induction false} DistinctElementsCard(s: seq<int>)
    requires forall p, q :: 0 <= p < q < |s| ==> s[p] != s[q]
    ensures |Elements(s)| == |s|
  {
    if |s| > 0 {
      var init := s[..|s| - 1];
      DistinctElementsCard(init);
      assert Elements(s) == Elements(init) + {s[|s| - 1]};
      assert s[|s| - 1] !in Elements(init);
    }
  }

  /** The ranks 1..n in order. */
  function Iota(n: nat): (s: seq<int>)
    ensures |s| == n
    ensures forall p :: 0 <= p < n ==> s[p] == p + 1
  {
    seq(n, p => p + 1)
  }

  /** Values in 1..n all occur in `Iota(n)`. */
  lemma ImageInIota(s: seq<int>)
    requires forall p :: 0 <= p < |s| ==> 1 <= s[p] <= |s|
    ensures Elements(s) <= Elements(Iota(|s|))
  {
    var iota := Iota(|s|);
    forall v | v in Elements(s)
      ensures v in Elements(iota)
    {
      var p :| 0 <= p < |s| && s[p] == v;
      assert iota[v - 1] == v;
    }
  }

  /** A subset as large as its superset is the superset. */
  lemma SubsetOfSameSize(a: set<int>, b: set<int>)
    requires a <= b && |a| == |b|
    ensures a == b
  {
    var missing := b - a;
    assert b == a + missing && a !! missing;
  }

  /**
   * Pigeonhole: n distinct values, all in 1..n, hit every value of 1..n.
   */
  lemma DistinctInRangeIsOnto(s: seq<int>)
    requires forall p :: 0 <= p < |s| ==> 1 <= s[p] <= |s|
    requires forall p, q :: 0 <= p < q < |s| ==> s[p] != s[q]
    ensures forall k :: 1 <= k <= |s| ==> k in s
  {
    var iota := Iota(|s|);
    DistinctElementsCard(s);
    DistinctElementsCard(iota);
    ImageInIota(s);
    SubsetOfSameSize(Elements(s), Elements(iota));
    forall k | 1 <= k <= |s|
      ensures k in s
    {
      assert iota[k - 1] == k;
      assert k in Elements(iota);
      var p :| 0 <= p < |s| && s[p] == k;
    }
  }

  /** The rank of every index, in index order. */
  function Ranks(keys: seq<int>): (r: seq<nat>)
    ensures |r| == |keys|
  {
    seq(|keys|, i requires 0 <= i < |keys| => StableRank(keys, i))
  }

  /** The ranks of all indices are a permutation of 1..n: in range, pairwise distinct, onto. */
  lemma StableRanksArePermutation(keys: seq<int>)
    ensures forall i :: 0 <= i < |keys| ==> 1 <= Ranks(keys)[i] <= |keys|
    ensures forall i, j :: 0 <= i < j < |keys| ==> Ranks(keys)[i] != Ranks(keys)[j]
    ensures forall k :: 1 <= k <= |keys| ==> k in Ranks(keys)
  {
    var ranks := Ranks(keys);
    forall p, q | 0 <= p < q < |ranks|
      ensures ranks[p] != ranks[q]
    {
      StableRankInjective(keys, p, q);
    }
    DistinctInRangeIsOnto(ranks);
  }
}

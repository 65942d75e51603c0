/**
 * The permutation that std::stable_sort leaves in an index vector that starts
 * as 0, 1, ..., N-1 and is ordered by a key per position.
 */
module StableOrder {
  import opened Stores

  /** Position i goes before position j: a smaller key, or an equal key and a smaller position. */
  predicate Before(keys: seq<int>, i: int, j: int)
    requires 0 <= i < |keys| && 0 <= j < |keys|
  {
    keys[i] < keys[j] || (keys[i] == keys[j] && i < j)
  }

  predicate EntriesBelow(r: seq<int>, n: int) {
    forall k :: 0 <= k < |r| ==> 0 <= r[k] < n
  }

  predicate OrderedBy(r: seq<int>, keys: seq<int>)
    requires EntriesBelow(r, |keys|)
  {
    forall k, l :: 0 <= k < l < |r| ==> Before(keys, r[k], r[l])
  }

  /** How many leading entries of r have a key not above keys[i]. */
  function InsertPos(r: seq<int>, i: int, keys: seq<int>): (p: nat)
    requires 0 <= i < |keys| && EntriesBelow(r, |keys|)
    ensures p <= |r|
    ensures forall m :: 0 <= m < p ==> keys[r[m]] <= keys[i]
    ensures p < |r| ==> keys[i] < keys[r[p]]
    decreases |r|
  {
    if |r| == 0 || keys[i] < keys[r[0]] then 0
    else 1 + InsertPos(r[1..], i, keys)
  }

  /** r with position i inserted after the entries whose key is not above keys[i]. */
  function Insert(r: seq<int>, i: int, keys: seq<int>): seq<int>
    requires 0 <= i < |keys| && EntriesBelow(r, |keys|)
  {
    var p := InsertPos(r, i, keys);
    r[..p] + [i] + r[p..]
  }

  /** The stable sort of 0 .. n-1 by keys, built by inserting each position in turn. */
  function StableOrder(keys: seq<int>, n: nat): (r: seq<int>)
    requires n <= |keys|
    ensures |r| == n && EntriesBelow(r, n)
    decreases n
  {
    if n == 0 then []
    else
      var r := StableOrder(keys, n - 1);
      var p := InsertPos(r, n - 1, keys);
      var s := Insert(r, n - 1, keys);
      assert forall k :: 0 <= k < |s| ==> s[k] == (if k < p then r[k] else if k == p then n - 1 else r[k - 1]);
      s
  }

  lemma {:induction false} InsertOrdered(r: seq<int>, i: int, keys: seq<int>)
    requires 0 <= i < |keys| && EntriesBelow(r, i) && OrderedBy(r, keys)
    ensures EntriesBelow(Insert(r, i, keys), |keys|)
    ensures OrderedBy(Insert(r, i, keys), keys)
  {
    var p := InsertPos(r, i, keys);
    var s := Insert(r, i, keys);
    assert |s| == |r| + 1;
    assert forall k :: 0 <= k < |s| ==> s[k] == (if k < p then r[k] else if k == p then i else r[k - 1]);
    forall k, l | 0 <= k < l < |s| ensures Before(keys, s[k], s[l]) {
      if l < p || k > p {
      } else if k == p {
        assert Before(keys, r[p], r[l - 1]) || l - 1 == p;
      } else if l == p {
      } else {
        assert Before(keys, r[k], r[p]) || k == p;
        assert Before(keys, r[p], r[l - 1]) || l - 1 == p;
      }
    }
  }

  predicate Distinct(r: seq<int>) {
    forall k, l :: 0 <= k < l < |r| ==> r[k] != r[l]
  }

  /** The stable order lists 0 .. n-1 once each, ordered by key and, among equal keys, by position. */
  lemma {:induction false} StableOrderSpec(keys: seq<int>, n: nat)
    requires n <= |keys|
    ensures IsPermutation(StableOrder(keys, n))
    ensures EntriesBelow(StableOrder(keys, n), |keys|)
    ensures OrderedBy(StableOrder(keys, n), keys)
    decreases n
  {
    if n > 0 {
      var r := StableOrder(keys, n - 1);
      StableOrderSpec(keys, n - 1);
      InsertOrdered(r, n - 1, keys);
      InsertPermutes(r, n - 1, keys);
    }
  }

  /** Inserting i into a permutation of 0 .. i-1 gives a permutation of 0 .. i. */
  lemma {:induction false} InsertPermutes(r: seq<int>, i: int, keys: seq<int>)
    requires 0 <= i < |keys| && |r| == i && IsPermutation(r)
    ensures IsPermutation(Insert(r, i, keys))
  {
    var p := InsertPos(r, i, keys);
    var s := Insert(r, i, keys);
    assert forall k :: 0 <= k < |s| ==> s[k] == (if k < p then r[k] else if k == p then i else r[k - 1]);
  }

  /** With equal keys everywhere the stable order is the identity. */
  lemma {:induction false} StableOrderOfEqualKeys(keys: seq<int>, n: nat)
    requires n <= |keys| && forall k :: 0 <= k < n ==> keys[k] == keys[0]
    ensures StableOrder(keys, n) == Iota(n)
  {
    var r := StableOrder(keys, n);
    StableOrderSpec(keys, n);
    forall k, l | 0 <= k < l < n ensures r[k] < r[l] {
      assert Before(keys, r[k], r[l]);
    }
    IncreasingPermutation(r);
  }

  /** A strictly increasing permutation of 0 .. n-1 is the identity. */
  lemma {:induction false} IncreasingPermutation(r: seq<int>)
    requires IsPermutation(r)
    requires forall k, l :: 0 <= k < l < |r| ==> r[k] < r[l]
    ensures r == Iota(|r|)
  {
    forall k | 0 <= k < |r| ensures r[k] == k {
      AtLeastPosition(r, k);
      AtMostPosition(r, k);
    }
  }

  lemma {:induction false} AtLeastPosition(r: seq<int>, k: nat)
    requires k < |r| && EntriesBelow(r, |r|)
    requires forall a, b :: 0 <= a < b < |r| ==> r[a] < r[b]
    ensures r[k] >= k
    decreases k
  {
    if k > 0 { AtLeastPosition(r, k - 1); }
  }

  lemma {:induction false} AtMostPosition(r: seq<int>, k: nat)
    requires k < |r| && EntriesBelow(r, |r|)
    requires forall a, b :: 0 <= a < b < |r| ==> r[a] < r[b]
    ensures r[k] <= k
    decreases |r| - k
  {
    if k < |r| - 1 { AtMostPosition(r, k + 1); }
  }

  function Iota(n: nat): (r: seq<int>)
    ensures |r| == n && forall k :: 0 <= k < n ==> r[k] == k
  {
    seq(n, k => k)
  }
}

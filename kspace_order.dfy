/**
 * The arithmetic behind organise_kspace: the number of encoding states per
 * counter, the row-major position of a tag, the subsets that the nested loops
 * create in row-major order, and the grouping of acquisition numbers by position.
 */
module KSpaceOrder {
  import opened Errors
  import opened Ismrmrd
  import opened KSpace

  /** get_num_enc_states: maximum - minimum + 1 for a present limit, 1 for an absent one. */
  function NumEncStates(lim: Option<Limit>): (n: int)
    ensures lim.None? ==> n == 1
    ensures lim.Some? ==> n == lim.value.maximum - lim.value.minimum + 1
  {
    if lim.Some? then lim.value.maximum - lim.value.minimum + 1 else 1
  }

  /**
   * The loop bounds of organise_kspace, in tag order: average, slice, contrast,
   * phase, repetition, set, and segment, which is always 1.
   */
  function StateCounts(limits: EncodingLimits): (dims: seq<int>)
    ensures |dims| == 7 && dims[6] == 1
  {
    [NumEncStates(limits.average), NumEncStates(limits.slice), NumEncStates(limits.contrast),
     NumEncStates(limits.phase), NumEncStates(limits.repetition), NumEncStates(limits.setLimit), 1]
  }

  predicate AllPositive(dims: seq<int>) {
    forall d :: 0 <= d < |dims| ==> dims[d] > 0
  }

  function Product(dims: seq<int>): int
    decreases |dims|
  {
    if |dims| == 0 then 1 else Product(dims[..|dims| - 1]) * dims[|dims| - 1]
  }

  lemma ProductPositive(dims: seq<int>)
    requires AllPositive(dims)
    ensures Product(dims) > 0
    decreases |dims|
  {
    if |dims| > 0 {
      ProductPositive(dims[..|dims| - 1]);
      MulPositive(Product(dims[..|dims| - 1]), dims[|dims| - 1]);
    }
  }

  lemma MulPositive(a: int, b: int)
    requires a > 0 && b > 0
    ensures a * b > 0
  {
  }

  /** How many subsets the nested loops create: none as soon as one bound is not positive. */
  function SubsetCount(dims: seq<int>): (n: nat)
    ensures AllPositive(dims) ==> n == Product(dims)
    ensures !AllPositive(dims) ==> n == 0
  {
    if AllPositive(dims) then ProductPositive(dims); Product(dims) else 0
  }

  /** The row-major position of the first |dims| tag entries, evaluated as in the source (Horner's rule). */
  function RowMajor(t: seq<int>, dims: seq<int>): int
    requires |dims| <= |t|
    decreases |dims|
  {
    if |dims| == 0 then 0
    else RowMajor(t, dims[..|dims| - 1]) * dims[|dims| - 1] + t[|dims| - 1]
  }

  predicate InRange(t: seq<int>, dims: seq<int>)
    requires |dims| <= |t|
  {
    forall d :: 0 <= d < |dims| ==> 0 <= t[d] < dims[d]
  }

  /** The digits of p in the mixed radix dims: the counters of the p-th subset. */
  function Digits(p: nat, dims: seq<int>): (t: seq<int>)
    requires AllPositive(dims)
    ensures |t| == |dims|
    decreases |dims|
  {
    if |dims| == 0 then []
    else Digits(p / dims[|dims| - 1], dims[..|dims| - 1]) + [p % dims[|dims| - 1]]
  }

  lemma RowMajorPrefix(t: seq<int>, u: seq<int>, dims: seq<int>)
    requires |dims| <= |t| && |dims| <= |u| && t[..|dims|] == u[..|dims|]
    ensures RowMajor(t, dims) == RowMajor(u, dims)
    decreases |dims|
  {
    if |dims| > 0 {
      var n := |dims| - 1;
      assert t[..n] == u[..n] by { assert t[..n] == t[..|dims|][..n]; assert u[..n] == u[..|dims|][..n]; }
      assert t[n] == t[..|dims|][n] && u[n] == u[..|dims|][n];
      RowMajorPrefix(t, u, dims[..n]);
    }
  }

  lemma BoundStep(r: int, p: int, digit: int, d: int)
    requires 0 <= r < p && 0 <= digit < d
    ensures 0 <= r * d + digit < p * d
  {
    assert r * d <= (p - 1) * d;
  }

  /** A tag within the bounds has a row-major position below the subset count. */
  lemma {:induction false} RowMajorBounded(t: seq<int>, dims: seq<int>)
    requires |dims| <= |t| && InRange(t, dims)
    ensures AllPositive(dims)
    ensures 0 <= RowMajor(t, dims) < SubsetCount(dims)
    decreases |dims|
  {
    if |dims| > 0 {
      var n := |dims| - 1;
      RowMajorBounded(t, dims[..n]);
      BoundStep(RowMajor(t, dims[..n]), Product(dims[..n]), t[n], dims[n]);
    }
  }

  lemma MulMonotone(a: int, b: int, d: int)
    requires d > 0
    ensures a < b <==> a * d < b * d
    ensures a == b <==> a * d == b * d
  {
    MulSign(b - a, d);
    assert b * d - a * d == (b - a) * d;
  }

  lemma MulSign(x: int, d: int)
    requires d > 0
    ensures x > 0 ==> x * d > 0
    ensures x == 0 ==> x * d == 0
    ensures x < 0 ==> x * d < 0
  {
  }

  lemma DivBound(p: int, q: int, d: int)
    requires 0 <= p < q * d && d > 0 && q > 0
    ensures p / d < q
  {
    var k := p / d;
    assert k * d <= p;
    MulMonotone(k, q, d);
  }

  /** Digits undoes RowMajor: the p-th subset sits at row-major position p. */
  lemma {:induction false} RowMajorOfDigits(p: nat, dims: seq<int>)
    requires AllPositive(dims) && p < Product(dims)
    ensures InRange(Digits(p, dims), dims)
    ensures RowMajor(Digits(p, dims), dims) == p
    decreases |dims|
  {
    if |dims| > 0 {
      var n := |dims| - 1;
      var d := dims[n];
      ProductPositive(dims[..n]);
      DivBound(p, Product(dims[..n]), d);
      RowMajorOfDigits(p / d, dims[..n]);
      var t := Digits(p, dims);
      assert t[..n] == Digits(p / d, dims[..n]);
      RowMajorPrefix(t, Digits(p / d, dims[..n]), dims[..n]);
    }
  }

  /** RowMajor undoes Digits: a tag within the bounds is recovered from its position. */
  lemma {:induction false} DigitsOfRowMajor(t: seq<int>, dims: seq<int>)
    requires |dims| <= |t| && InRange(t, dims)
    ensures AllPositive(dims) && RowMajor(t, dims) >= 0
    ensures Digits(RowMajor(t, dims), dims) == t[..|dims|]
    decreases |dims|
  {
    if |dims| > 0 {
      var n := |dims| - 1;
      var d := dims[n];
      RowMajorBounded(t, dims[..n]);
      var r := RowMajor(t, dims[..n]);
      DigitsOfRowMajor(t, dims[..n]);
      assert (r * d + t[n]) / d == r && (r * d + t[n]) % d == t[n] by {
        DivModStep(r, d, t[n]);
      }
      assert t[..|dims|] == t[..n] + [t[n]];
    }
  }

  lemma DivModStep(r: int, d: int, digit: int)
    requires r >= 0 && 0 <= digit < d
    ensures (r * d + digit) / d == r && (r * d + digit) % d == digit
  {
    var m := r * d + digit;
    var q, s := m / d, m % d;
    assert (q - r) * d == digit - s by {
      assert m == q * d + s;
      assert (q - r) * d == q * d - r * d;
    }
    SmallMultiple(q - r, d);
  }

  /** The only multiple of d strictly between -d and d is 0. */
  lemma SmallMultiple(k: int, d: int)
    requires d > 0 && -d < k * d < d
    ensures k == 0
  {
    if k > 1 {
      MulMonotone(1, k, d);
    } else if k < -1 {
      MulMonotone(k, -1, d);
    }
  }

  /** The tag of the p-th subset the nested loops create: its counters, then zeros. */
  function CandidateTag(p: nat, dims: seq<int>): (t: seq<int>)
    requires AllPositive(dims) && |dims| == 7
    ensures |t| == NUM_KSPACE_DIMS && t[..7] == Digits(p, dims)
    ensures forall d :: 7 <= d < NUM_KSPACE_DIMS ==> t[d] == 0
  {
    Digits(p, dims) + ZeroTag()[7..]
  }

  /**
   * An acquisition tag within the loop bounds is the tag of the subset at its
   * row-major position, so each acquisition lands in the subset named by its own tag.
   */
  lemma {:induction false} CandidateTagOfPosition(t: seq<int>, dims: seq<int>)
    requires |t| == NUM_KSPACE_DIMS && |dims| == 7 && InRange(t, dims)
    requires forall d :: 7 <= d < NUM_KSPACE_DIMS ==> t[d] == 0
    ensures AllPositive(dims) && 0 <= RowMajor(t, dims) < SubsetCount(dims)
    ensures CandidateTag(RowMajor(t, dims), dims) == t
  {
    RowMajorBounded(t, dims);
    DigitsOfRowMajor(t, dims);
    var c := CandidateTag(RowMajor(t, dims), dims);
    assert c[..7] == t[..7];
    forall d | 0 <= d < NUM_KSPACE_DIMS ensures c[d] == t[d] {
      if d < 7 { assert c[d] == c[..7][d] && t[d] == t[..7][d]; }
    }
  }

  predicate StrictlyIncreasing(s: seq<int>) {
    forall k, l :: 0 <= k < l < |s| ==> s[k] < s[l]
  }

  /** The acquisition numbers i with pos[i] == p, in the order they are visited. */
  function Bucket(pos: seq<int>, p: int): seq<int>
    decreases |pos|
  {
    if |pos| == 0 then []
    else Bucket(pos[..|pos| - 1], p) + (if pos[|pos| - 1] == p then [|pos| - 1] else [])
  }

  /** A bucket holds exactly the numbers at position p, ascending. */
  lemma {:induction false} BucketMembers(pos: seq<int>, p: int)
    ensures forall x :: x in Bucket(pos, p) <==> 0 <= x < |pos| && pos[x] == p
    ensures StrictlyIncreasing(Bucket(pos, p))
    decreases |pos|
  {
    if |pos| > 0 {
      var n := |pos| - 1;
      BucketMembers(pos[..n], p);
      assert forall x :: 0 <= x < n ==> pos[..n][x] == pos[x];
      var b := Bucket(pos[..n], p);
      forall k | 0 <= k < |b| ensures b[k] < n {
        assert b[k] in b;
      }
    }
  }

  /** The subsets the nested loops create, in row-major order, each filled with its bucket. */
  function Filled(pos: seq<int>, dims: seq<int>): (r: seq<KSpaceSubset>)
    requires |dims| == 7
    ensures |r| == SubsetCount(dims)
    ensures forall p :: 0 <= p < |r| ==>
      AllPositive(dims) && r[p] == KSpaceSubset(CandidateTag(p, dims), Bucket(pos, p))
  {
    seq(SubsetCount(dims), p requires 0 <= p < SubsetCount(dims) =>
      KSpaceSubset(CandidateTag(p, dims), Bucket(pos, p)))
  }

  /** Removal of the empty subsets, keeping the order of the others. */
  function DropEmpty(ss: seq<KSpaceSubset>): seq<KSpaceSubset>
    decreases |ss|
  {
    if |ss| == 0 then []
    else DropEmpty(ss[..|ss| - 1]) + (if ss[|ss| - 1].idxSet == [] then [] else [ss[|ss| - 1]])
  }

  /** The positions in ss of the subsets DropEmpty keeps. */
  function KeptPositions(ss: seq<KSpaceSubset>): seq<int>
    decreases |ss|
  {
    if |ss| == 0 then []
    else KeptPositions(ss[..|ss| - 1]) + (if ss[|ss| - 1].idxSet == [] then [] else [|ss| - 1])
  }

  lemma DropEmptyKeeps(ss: seq<KSpaceSubset>)
    ensures |DropEmpty(ss)| == |KeptPositions(ss)|
    ensures forall k :: 0 <= k < |KeptPositions(ss)| ==>
      0 <= KeptPositions(ss)[k] < |ss| && DropEmpty(ss)[k] == ss[KeptPositions(ss)[k]]
    ensures StrictlyIncreasing(KeptPositions(ss))
    ensures forall p :: 0 <= p < |ss| && ss[p].idxSet != [] ==> p in KeptPositions(ss)
    ensures forall k :: 0 <= k < |DropEmpty(ss)| ==> DropEmpty(ss)[k].idxSet != []
  {
    KeptPositionsAt(ss);
    KeptPositionsIncrease(ss);
    KeptPositionsCover(ss);
  }

  /** DropEmpty keeps, in order, the subsets at KeptPositions, and only non-empty ones. */
  lemma {:induction false} KeptPositionsAt(ss: seq<KSpaceSubset>)
    ensures |DropEmpty(ss)| == |KeptPositions(ss)|
    ensures forall k :: 0 <= k < |KeptPositions(ss)| ==>
      0 <= KeptPositions(ss)[k] < |ss| && DropEmpty(ss)[k] == ss[KeptPositions(ss)[k]]
    ensures forall k :: 0 <= k < |DropEmpty(ss)| ==> DropEmpty(ss)[k].idxSet != []
    decreases |ss|
  {
    if |ss| > 0 {
      var n := |ss| - 1;
      KeptPositionsAt(ss[..n]);
      assert forall p :: 0 <= p < n ==> ss[..n][p] == ss[p];
    }
  }

  lemma {:induction false} KeptPositionsIncrease(ss: seq<KSpaceSubset>)
    ensures forall k :: 0 <= k < |KeptPositions(ss)| ==> KeptPositions(ss)[k] < |ss|
    ensures StrictlyIncreasing(KeptPositions(ss))
    decreases |ss|
  {
    if |ss| > 0 {
      KeptPositionsIncrease(ss[..|ss| - 1]);
    }
  }

  lemma {:induction false} KeptPositionsCover(ss: seq<KSpaceSubset>)
    ensures forall p :: 0 <= p < |ss| && ss[p].idxSet != [] ==> p in KeptPositions(ss)
    decreases |ss|
  {
    if |ss| > 0 {
      var n := |ss| - 1;
      KeptPositionsCover(ss[..n]);
      assert forall p :: 0 <= p < n ==> ss[..n][p] == ss[p];
    }
  }

  /** The value of `sorting_` after organise_kspace: the non-empty filled subsets. */
  function Organised(pos: seq<int>, dims: seq<int>): seq<KSpaceSubset>
    requires |dims| == 7
  {
    DropEmpty(Filled(pos, dims))
  }

  predicate InSomeSubset(r: seq<KSpaceSubset>, i: int) {
    exists k :: 0 <= k < |r| && i in r[k].idxSet
  }

  /** The k-th organised subset is the filled subset at the k-th kept position. */
  lemma OrganisedAt(pos: seq<int>, dims: seq<int>, k: int)
    requires |dims| == 7 && 0 <= k < |Organised(pos, dims)|
    ensures var kp := KeptPositions(Filled(pos, dims));
      && |kp| == |Organised(pos, dims)|
      && 0 <= kp[k] < SubsetCount(dims) && AllPositive(dims)
      && Organised(pos, dims)[k] == KSpaceSubset(CandidateTag(kp[k], dims), Bucket(pos, kp[k]))
  {
    DropEmptyKeeps(Filled(pos, dims));
  }

  lemma OrganisedCovers(pos: seq<int>, dims: seq<int>, i: int)
    requires |dims| == 7 && 0 <= i < |pos| && 0 <= pos[i] < SubsetCount(dims)
    ensures InSomeSubset(Organised(pos, dims), i)
  {
    var f := Filled(pos, dims);
    var kp := KeptPositions(f);
    DropEmptyKeeps(f);
    var p := pos[i];
    BucketMembers(pos, p);
    assert i in f[p].idxSet;
    var k :| 0 <= k < |kp| && kp[k] == p;
    assert Organised(pos, dims)[k] == f[p];
  }

  lemma OrganisedUnique(pos: seq<int>, dims: seq<int>, i: int, k: int, l: int)
    requires |dims| == 7
    requires 0 <= k < |Organised(pos, dims)| && 0 <= l < |Organised(pos, dims)|
    requires i in Organised(pos, dims)[k].idxSet && i in Organised(pos, dims)[l].idxSet
    ensures k == l
  {
    var kp := KeptPositions(Filled(pos, dims));
    DropEmptyKeeps(Filled(pos, dims));
    OrganisedAt(pos, dims, k);
    OrganisedAt(pos, dims, l);
    BucketMembers(pos, kp[k]);
    BucketMembers(pos, kp[l]);
  }

  lemma OrganisedShape(pos: seq<int>, dims: seq<int>, k: int)
    requires |dims| == 7 && 0 <= k < |Organised(pos, dims)|
    ensures var s := Organised(pos, dims)[k];
      && s.idxSet != [] && StrictlyIncreasing(s.idxSet)
      && forall i :: i in s.idxSet ==>
           0 <= i < |pos| && pos[i] >= 0 && AllPositive(dims) && s.tag == CandidateTag(pos[i], dims)
  {
    DropEmptyKeeps(Filled(pos, dims));
    OrganisedAt(pos, dims, k);
    BucketMembers(pos, KeptPositions(Filled(pos, dims))[k]);
  }

  /**
   * When every position is a valid subset number, each acquisition number lies in
   * exactly one organised subset, every subset is non-empty and ascending, and the
   * subset holding i carries the tag of position pos[i].
   */
  lemma {:induction false} OrganisedPartition(pos: seq<int>, dims: seq<int>)
    requires |dims| == 7
    requires forall i :: 0 <= i < |pos| ==> 0 <= pos[i] < SubsetCount(dims)
    ensures var r := Organised(pos, dims);
      && (forall i :: 0 <= i < |pos| ==> InSomeSubset(r, i))
      && (forall i, k, l :: 0 <= k < |r| && 0 <= l < |r| && i in r[k].idxSet && i in r[l].idxSet ==> k == l)
      && (forall k :: 0 <= k < |r| ==> r[k].idxSet != [] && StrictlyIncreasing(r[k].idxSet))
      && (forall k, i :: 0 <= k < |r| && i in r[k].idxSet ==>
            0 <= i < |pos| && pos[i] >= 0 && AllPositive(dims) && r[k].tag == CandidateTag(pos[i], dims))
  {
    var r := Organised(pos, dims);
    forall i | 0 <= i < |pos| ensures InSomeSubset(r, i) {
      OrganisedCovers(pos, dims, i);
    }
    forall i, k, l | 0 <= k < |r| && 0 <= l < |r| && i in r[k].idxSet && i in r[l].idxSet
      ensures k == l
    {
      OrganisedUnique(pos, dims, i, k, l);
    }
    forall k | 0 <= k < |r|
      ensures r[k].idxSet != [] && StrictlyIncreasing(r[k].idxSet)
      ensures forall i :: i in r[k].idxSet ==>
        0 <= i < |pos| && pos[i] >= 0 && AllPositive(dims) && r[k].tag == CandidateTag(pos[i], dims)
    {
      OrganisedShape(pos, dims, k);
    }
  }
}

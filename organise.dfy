/**
 * What organise_kspace computes from a container and its header: the subset
 * number of every acquisition, the table of subsets with their index lists,
 * and the error that stops the computation.
 */
module KSpaceSorting {
  import opened Errors
  import opened Ismrmrd
  import opened Stores
  import opened KSpace
  import opened KSpaceOrder

  /**
   * The subset number of logical acquisition i: the row-major position of its tag
   * under the loop bounds dims. A position outside the table is refused (the
   * `.at` access); so is an acquisition number that index(i) refuses.
   */
  function PositionOf(s: Store<Acquisition>, i: int, dims: seq<int>): (r: Result<int>)
    requires |dims| == 7
    ensures r.Ok? ==> s.Read(i).Ok? && 0 <= r.value < SubsetCount(dims)
  {
    var acq :- s.Read(i);
    var p := RowMajor(TagFromAcquisition(acq), dims);
    if 0 <= p < SubsetCount(dims) then Ok(p) else Err(OutOfRange)
  }

  /** An acquisition whose counters lie within the loop bounds goes to the subset carrying its own tag. */
  lemma PositionOfInRange(s: Store<Acquisition>, i: int, dims: seq<int>)
    requires |dims| == 7 && s.Read(i).Ok?
    requires InRange(TagFromAcquisition(s.Read(i).value), dims)
    ensures PositionOf(s, i, dims).Ok?
    ensures AllPositive(dims)
    ensures CandidateTag(PositionOf(s, i, dims).value, dims) == TagFromAcquisition(s.Read(i).value)
  {
    CandidateTagOfPosition(TagFromAcquisition(s.Read(i).value), dims);
  }

  /** The positions of acquisitions 0, 1, ... up to the first one that fails, and that failure. */
  datatype Scan = Scan(pos: seq<int>, error: Option<Error>)

  /** The loop over acquisitions 0 .. n-1 of organise_kspace, stopping at the first failure. */
  function Positions(s: Store<Acquisition>, dims: seq<int>, n: nat): (r: Scan)
    requires |dims| == 7
    ensures |r.pos| <= n
    ensures forall i :: 0 <= i < |r.pos| ==> PositionOf(s, i, dims) == Ok(r.pos[i])
    ensures r.error.None? ==> |r.pos| == n
    ensures r.error.Some? ==> |r.pos| < n && PositionOf(s, |r.pos|, dims) == Err(r.error.value)
    decreases n
  {
    if n == 0 then Scan([], None)
    else
      var prev := Positions(s, dims, n - 1);
      if prev.error.Some? then prev
      else match PositionOf(s, n - 1, dims)
        case Ok(p) => Scan(prev.pos + [p], None)
        case Err(e) => Scan(prev.pos, Some(e))
  }

  /** Once the scan has failed, scanning further acquisitions changes nothing. */
  lemma {:induction false} PositionsStopped(s: Store<Acquisition>, dims: seq<int>, m: nat, n: nat)
    requires |dims| == 7 && m <= n && Positions(s, dims, m).error.Some?
    ensures Positions(s, dims, n) == Positions(s, dims, m)
    decreases n
  {
    if n > m {
      PositionsStopped(s, dims, m, n - 1);
    }
  }

  /** The value of `sorting_` after organise_kspace, and the exception that ended it, if any. */
  datatype Organisation = Organisation(sorting: seq<KSpaceSubset>, error: Option<Error>)

  /** The loop bounds organise_kspace reads from the first encoding of the header. */
  function HeaderDims(hdr: Header): seq<int>
    requires |hdr.encoding| >= 1
  {
    StateCounts(hdr.encoding[0].encodingLimits)
  }

  /**
   * organise_kspace: the table is cleared; a header with several encodings is refused,
   * one with none is undefined; otherwise every subset of the loop bounds is created in
   * row-major order, each acquisition number is appended to the subset at its position,
   * and the empty subsets are removed. A failing acquisition leaves the table as filled
   * so far, empty subsets included.
   */
  function Organise(s: Store<Acquisition>, hdr: Header): Organisation
  {
    if |hdr.encoding| > 1 then Organisation([], Some(MultipleEncodings))
    else if |hdr.encoding| == 0 then Organisation([], Some(Undefined))
    else
      var dims := HeaderDims(hdr);
      var scan := Positions(s, dims, |s.items|);
      if scan.error.Some? then Organisation(Filled(scan.pos, dims), scan.error)
      else Organisation(Organised(scan.pos, dims), None)
  }

  /** Every acquisition of the container has a subset under the header's loop bounds. */
  predicate AllPlaced(s: Store<Acquisition>, hdr: Header)
    requires |hdr.encoding| >= 1
  {
    forall i :: 0 <= i < |s.items| ==> PositionOf(s, i, HeaderDims(hdr)).Ok?
  }

  /** organise_kspace succeeds exactly for a single encoding under which every acquisition has a subset. */
  lemma OrganiseSucceedsIff(s: Store<Acquisition>, hdr: Header)
    ensures Organise(s, hdr).error.None? <==> |hdr.encoding| == 1 && AllPlaced(s, hdr)
    ensures |hdr.encoding| > 1 ==> Organise(s, hdr) == Organisation([], Some(MultipleEncodings))
  {
    if |hdr.encoding| == 1 {
      var dims := HeaderDims(hdr);
      var scan := Positions(s, dims, |s.items|);
      if scan.error.Some? {
        assert !PositionOf(s, |scan.pos|, dims).Ok?;
      }
    }
  }

  /**
   * After a successful organise_kspace every acquisition number below number() lies in
   * exactly one subset, and the subsets are non-empty with ascending index lists.
   */
  lemma {:induction false} OrganisePartitions(s: Store<Acquisition>, hdr: Header)
    requires Organise(s, hdr).error.None?
    ensures |hdr.encoding| == 1
    ensures var r := Organise(s, hdr).sorting;
      forall i :: 0 <= i < |s.items| ==> InSomeSubset(r, i)
    ensures var r := Organise(s, hdr).sorting;
      forall i, k, l :: 0 <= k < |r| && 0 <= l < |r| && i in r[k].idxSet && i in r[l].idxSet ==> k == l
    ensures var r := Organise(s, hdr).sorting;
      forall k :: 0 <= k < |r| ==> r[k].idxSet != [] && StrictlyIncreasing(r[k].idxSet)
  {
    var dims := HeaderDims(hdr);
    var scan := Positions(s, dims, |s.items|);
    assert scan.error.None? && |scan.pos| == |s.items|;
    OrganisedPartition(scan.pos, dims);
  }

  /** One listed number of one organised subset: an acquisition number whose position gives the subset's tag. */
  lemma OrganisedSubsetTag(s: Store<Acquisition>, hdr: Header, k: int, i: int)
    requires Organise(s, hdr).error.None?
    requires 0 <= k < |Organise(s, hdr).sorting| && i in Organise(s, hdr).sorting[k].idxSet
    ensures |hdr.encoding| == 1
    ensures 0 <= i < |s.items| && PositionOf(s, i, HeaderDims(hdr)).Ok?
    ensures AllPositive(HeaderDims(hdr))
    ensures Organise(s, hdr).sorting[k].tag == CandidateTag(PositionOf(s, i, HeaderDims(hdr)).value, HeaderDims(hdr))
  {
    var dims := HeaderDims(hdr);
    var scan := Positions(s, dims, |s.items|);
    assert Organise(s, hdr).sorting == Organised(scan.pos, dims);
    OrganisedShape(scan.pos, dims, k);
    assert PositionOf(s, i, dims) == Ok(scan.pos[i]);
  }

  /** The subset holding an in-bounds acquisition carries exactly that acquisition's tag. */
  lemma OrganiseKeepsOwnTag(s: Store<Acquisition>, hdr: Header, k: int, i: int)
    requires Organise(s, hdr).error.None?
    requires 0 <= k < |Organise(s, hdr).sorting| && i in Organise(s, hdr).sorting[k].idxSet
    ensures |hdr.encoding| == 1 && s.Read(i).Ok?
    ensures InRange(TagFromAcquisition(s.Read(i).value), HeaderDims(hdr)) ==>
      Organise(s, hdr).sorting[k].tag == TagFromAcquisition(s.Read(i).value)
  {
    OrganisedSubsetTag(s, hdr, k, i);
    if InRange(TagFromAcquisition(s.Read(i).value), HeaderDims(hdr)) {
      PositionOfInRange(s, i, HeaderDims(hdr));
    }
  }

  /** Appending one acquisition at position p adds its number to the end of subset p alone. */
  lemma FilledStep(pos: seq<int>, p: int, dims: seq<int>)
    requires |dims| == 7 && 0 <= p < SubsetCount(dims)
    ensures Filled(pos + [p], dims) == Filled(pos, dims)[p := AddIdxToSet(Filled(pos, dims)[p], |pos|)]
  {
    assert (pos + [p])[..|pos|] == pos;
    var f := Filled(pos, dims);
    var g := f[p := AddIdxToSet(f[p], |pos|)];
    forall q | 0 <= q < SubsetCount(dims)
      ensures Filled(pos + [p], dims)[q] == g[q]
    {
      assert Bucket(pos + [p], q) == Bucket(pos, q) + (if q == p then [|pos|] else []);
    }
  }

  /** The table before any acquisition is added: every subset of the bounds with an empty list. */
  lemma FilledEmpty(dims: seq<int>, p: int)
    requires |dims| == 7 && 0 <= p < SubsetCount(dims)
    ensures AllPositive(dims) && Filled([], dims)[p] == KSpaceSubset(CandidateTag(p, dims), [])
  {
  }

  /** The removal of empty subsets, one subset further. */
  lemma DropEmptyStep(ss: seq<KSpaceSubset>, m: int)
    requires 0 <= m < |ss|
    ensures DropEmpty(ss[..m + 1]) == DropEmpty(ss[..m]) + (if ss[m].idxSet == [] then [] else [ss[m]])
  {
    assert ss[..m + 1][..m] == ss[..m];
  }

  /**
   * The encoding minima are not subtracted: with an average range of 1 .. 1 there is one
   * subset, and an acquisition with average 1 has position 1, outside the table.
   */
  lemma MinimaNotSubtracted(acq: Acquisition, limits: EncodingLimits)
    requires limits.average == Some(Limit(1, 1, 1))
    requires limits.slice.None? && limits.contrast.None? && limits.phase.None?
    requires limits.repetition.None? && limits.setLimit.None?
    requires acq.idx.average == 1 && acq.idx.slice == 0 && acq.idx.contrast == 0
    requires acq.idx.phase == 0 && acq.idx.repetition == 0 && acq.idx.setIndex == 0
    ensures SubsetCount(StateCounts(limits)) == 1
    ensures PositionOf(Store([acq], [], false), 0, StateCounts(limits)) == Err(OutOfRange)
  {
    var dims := StateCounts(limits);
    assert dims == [1, 1, 1, 1, 1, 1, 1];
    assert Product(dims) == 1 by {
      assert Product([1]) == 1 by { assert [1][..0] == []; }
      assert Product([1, 1]) == 1 by { assert [1, 1][..1] == [1]; }
      assert Product([1, 1, 1]) == 1 by { assert [1, 1, 1][..2] == [1, 1]; }
      assert Product([1, 1, 1, 1]) == 1 by { assert [1, 1, 1, 1][..3] == [1, 1, 1]; }
      assert Product([1, 1, 1, 1, 1]) == 1 by { assert [1, 1, 1, 1, 1][..4] == [1, 1, 1, 1]; }
      assert Product([1, 1, 1, 1, 1, 1]) == 1 by { assert [1, 1, 1, 1, 1, 1][..5] == [1, 1, 1, 1, 1]; }
      assert dims[..6] == [1, 1, 1, 1, 1, 1];
    }
    var t := TagFromAcquisition(acq);
    assert t[..6] == [1, 0, 0, 0, 0, 0];
    assert RowMajor(t, dims) == 1 by {
      assert RowMajor(t, [1]) == 1 by { assert [1][..0] == []; }
      assert RowMajor(t, [1, 1]) == 1 by { assert [1, 1][..1] == [1]; }
      assert RowMajor(t, [1, 1, 1]) == 1 by { assert [1, 1, 1][..2] == [1, 1]; }
      assert RowMajor(t, [1, 1, 1, 1]) == 1 by { assert [1, 1, 1, 1][..3] == [1, 1, 1]; }
      assert RowMajor(t, [1, 1, 1, 1, 1]) == 1 by { assert [1, 1, 1, 1, 1][..4] == [1, 1, 1, 1]; }
      assert RowMajor(t, [1, 1, 1, 1, 1, 1]) == 1 by { assert [1, 1, 1, 1, 1, 1][..5] == [1, 1, 1, 1, 1]; }
      assert dims[..6] == [1, 1, 1, 1, 1, 1];
    }
  }
}

/**
 * K-space subsets: a tag naming one combination of encoding counters, and the
 * list of acquisition numbers that belong to it.
 */
module KSpace {
  import opened Ismrmrd

  /** Tag length: average, slice, contrast, phase, repetition, set, segment, then the user counters. */
  const NUM_KSPACE_DIMS: nat := 7 + USER_INTS

  datatype KSpaceSubset = KSpaceSubset(tag: seq<int>, idxSet: seq<int>)

  /** The tag every entry of which is zero. */
  function ZeroTag(): (t: seq<int>)
    ensures |t| == NUM_KSPACE_DIMS && forall d :: 0 <= d < |t| ==> t[d] == 0
  {
    seq(NUM_KSPACE_DIMS, d => 0)
  }

  /** The default-constructed subset: every tag entry is -1 and the index list is empty. */
  function DefaultSubset(): (s: KSpaceSubset)
    ensures |s.tag| == NUM_KSPACE_DIMS && s.idxSet == []
    ensures forall d :: 0 <= d < |s.tag| ==> s.tag[d] == -1
  {
    KSpaceSubset(seq(NUM_KSPACE_DIMS, d => -1), [])
  }

  /** add_idx_to_set: the index goes to the end of the list; the tag is kept. */
  function AddIdxToSet(s: KSpaceSubset, idx: int): (r: KSpaceSubset)
    ensures r.tag == s.tag
    ensures |r.idxSet| == |s.idxSet| + 1 && r.idxSet[|s.idxSet|] == idx
    ensures r.idxSet[..|s.idxSet|] == s.idxSet
  {
    s.(idxSet := s.idxSet + [idx])
  }

  /** The first subset has average 0 and every entry from contrast on equal to 0; the slice is not looked at. */
  predicate FirstSetTag(tag: seq<int>)
    requires |tag| == NUM_KSPACE_DIMS
  {
    tag[0] == 0 && forall d :: 2 <= d < NUM_KSPACE_DIMS ==> tag[d] == 0
  }

  /** is_first_set, as the loop over the tag entries computes it. */
  method IsFirstSet(s: KSpaceSubset) returns (isFirst: bool)
    requires |s.tag| == NUM_KSPACE_DIMS
    ensures isFirst == FirstSetTag(s.tag)
  {
    isFirst := s.tag[0] == 0;
    if isFirst {
      var dim := 2;
      while dim < NUM_KSPACE_DIMS
        invariant 2 <= dim <= NUM_KSPACE_DIMS
        invariant isFirst == forall d :: 2 <= d < dim ==> s.tag[d] == 0
      {
        isFirst := isFirst && s.tag[dim] == 0;
        dim := dim + 1;
      }
    }
  }

  /** Two tags that differ only in their slice entry are equally first or not. */
  lemma FirstSetIgnoresSlice(tag: seq<int>, slice: int)
    requires |tag| == NUM_KSPACE_DIMS
    ensures FirstSetTag(tag[1 := slice]) == FirstSetTag(tag)
  {
    var t := tag[1 := slice];
    assert t[0] == tag[0];
    assert forall d :: 2 <= d < NUM_KSPACE_DIMS ==> t[d] == tag[d];
  }

  /**
   * get_tag_from_acquisition: average, slice, contrast, phase, repetition and set
   * come from the acquisition's counters; the segment and user entries are 0.
   */
  function TagFromAcquisition(acq: Acquisition): (t: seq<int>)
    ensures |t| == NUM_KSPACE_DIMS
    ensures t[..6] == [acq.idx.average, acq.idx.slice, acq.idx.contrast,
                       acq.idx.phase, acq.idx.repetition, acq.idx.setIndex]
    ensures forall d :: 6 <= d < NUM_KSPACE_DIMS ==> t[d] == 0
  {
    [acq.idx.average, acq.idx.slice, acq.idx.contrast,
     acq.idx.phase, acq.idx.repetition, acq.idx.setIndex] + ZeroTag()[6..]
  }

  /** get_tag_from_img: the same six counters from an image header, the rest 0. */
  function TagFromImage(head: ImageHeader): (t: seq<int>)
    ensures |t| == NUM_KSPACE_DIMS
    ensures t[..6] == [head.average, head.slice, head.contrast,
                       head.phase, head.repetition, head.setIndex]
    ensures forall d :: 6 <= d < NUM_KSPACE_DIMS ==> t[d] == 0
  {
    [head.average, head.slice, head.contrast,
     head.phase, head.repetition, head.setIndex] + ZeroTag()[6..]
  }
}

/**
 * CoilImagesVector: the per-coil images a coil-sensitivity estimate starts from.
 * calculate(ad) chooses a Fourier encoding by the trajectory of the raw data,
 * extracts the calibration acquisitions, and reconstructs one image per k-space
 * subset of them. The encoding's backward transform is a parameter of the model.
 */
module CoilImages {
  import opened Errors
  import opened Ismrmrd
  import opened Stores
  import opened KSpace
  import opened KSpaceSorting
  import opened KSpaceOrder
  import opened AcquisitionQueries
  import opened Acquisitions
  import opened Images
  import StableOrder

  /** The Fourier encodings calculate can choose from. */
  datatype FourierEncoding = CartesianEncoding | RpeEncoding | NonCartesian2DEncoding

  /** The backward transform of an encoding: the image reconstructed from a subset with its header. */
  type Backward = (FourierEncoding, Header, seq<Acquisition>) -> Result<Image>

  /** The flags that mark calibration acquisitions. */
  const CALIBRATION_FLAGS: seq<FlagNumber> := [ACQ_IS_PARALLEL_CALIBRATION, ACQ_IS_PARALLEL_CALIBRATION_AND_IMAGING]

  /** get_trajectory_type: the trajectory of the first encoding; a header without one is undefined. */
  function TrajectoryOf(info: Header): Result<TrajectoryType> {
    if |info.encoding| == 0 then Err(Undefined) else Ok(info.encoding[0].trajectory)
  }

  /** The trajectories each encoding reconstructs. */
  predicate Reconstructs(enc: FourierEncoding, traj: TrajectoryType) {
    match enc
    case CartesianEncoding => traj == Cartesian
    case RpeEncoding => traj == Other
    case NonCartesian2DEncoding => traj == Radial || traj == GoldenAngle || traj == Spiral
  }

  /**
   * The encoding calculate chooses for the trajectory traj of the acquisitions s, in a
   * build with or without the non-Cartesian toolboxes: an encoding that reconstructs
   * the trajectory, chosen exactly when it is Cartesian, or when the toolboxes are
   * there, it is not EPI, and the acquisitions agree on a positive number of trajectory
   * dimensions.
   */
  function EncodingFor(traj: TrajectoryType, s: Store<Acquisition>, toolboxes: bool): (r: Result<FourierEncoding>)
    ensures r.Ok? ==> Reconstructs(r.value, traj)
    ensures r.Ok? <==> traj == Cartesian ||
                       (toolboxes && traj != Epi && TrajectoryDimensions(s).Ok? && TrajectoryDimensions(s).value > 0)
  {
    if traj == Cartesian then Ok(CartesianEncoding)
    else if traj == Epi then Err(Unsupported)
    else
      var dims :- TrajectoryDimensions(s);
      if dims == 0 then Err(Assertion)
      else if !toolboxes then Err(Unsupported)
      else if traj == Other then Ok(RpeEncoding)
      else Ok(NonCartesian2DEncoding)
  }

  /**
   * extract_calibration_data(ad): a clone of ad; for a Cartesian trajectory with
   * calibration acquisitions, the clone is emptied, refilled with those acquisitions in
   * ascending number order, and sorted by time.
   */
  function CalibrationOf(s: Store<Acquisition>, info: Header): Result<Snapshot>
    requires s.WellFormed()
  {
    var clone :- CloneOf(s, info);
    var traj :- TrajectoryOf(info);
    if traj != Cartesian then Ok(clone)
    else
      var idx :- Flagged(s, CALIBRATION_FLAGS, |s.items|);
      if |idx| < 1 then Ok(clone) else Refilled(s, info, idx)
  }

  /**
   * The Cartesian branch of extract_calibration_data: the clone, which keeps ad's sorted
   * flag, emptied, refilled with ad's acquisitions idx in list order, and sorted by time.
   */
  function Refilled(s: Store<Acquisition>, info: Header, idx: seq<int>): Result<Snapshot> {
    var g := Gather(s, idx, |idx|);
    if g.error.Some? then Err(g.error.value)
    else
      var order := TimeOrder(Store(g.items, [], s.sorted));
      var org := Organise(Store(g.items, order, s.sorted), info);
      if org.error.Some? then Err(org.error.value)
      else Ok(Snapshot(Store(g.items, order, true), org.sorting, info))
  }

  /** A trajectory other than Cartesian: the calibration data reads at every position what ad reads. */
  lemma CalibrationNonCartesian(s: Store<Acquisition>, info: Header)
    requires s.WellFormed() && CalibrationOf(s, info).Ok? && info.encoding[0].trajectory != Cartesian
    ensures var c := CalibrationOf(s, info).value.data;
            && |c.items| == |s.items| && c.index == []
            && forall i :: 0 <= i < |s.items| ==> c.Read(i) == s.Read(i)
  {
    CloneReads(s, info);
  }

  /**
   * A Cartesian trajectory with calibration acquisitions: the calibration data holds
   * exactly the acquisitions that carry a calibration flag, in ascending number order,
   * each at the position of its rank. Its permutation is the identity: the time sort
   * reads every position through a zero-filled permutation, so all keys are equal.
   */
  lemma CalibrationCartesian(s: Store<Acquisition>, info: Header)
    requires s.WellFormed() && CalibrationOf(s, info).Ok? && info.encoding[0].trajectory == Cartesian
    requires Flagged(s, CALIBRATION_FLAGS, |s.items|).Ok? && |Flagged(s, CALIBRATION_FLAGS, |s.items|).value| > 0
    ensures var idx := Flagged(s, CALIBRATION_FLAGS, |s.items|).value;
            var c := CalibrationOf(s, info).value.data;
            && |c.items| == |idx|
            && (forall k :: 0 <= k < |idx| ==> s.Read(idx[k]) == Ok(c.items[k]))
            && (forall x :: x in idx <==> 0 <= x < |s.items| && s.Read(x).Ok? && AnyFlagSet(s.Read(x).value.flags, CALIBRATION_FLAGS))
            && StrictlyIncreasing(idx)
            && c.index == StableOrder.Iota(|c.items|) && c.sorted
  {
    var idx := Flagged(s, CALIBRATION_FLAGS, |s.items|).value;
    FlaggedMembers(s, CALIBRATION_FLAGS, |s.items|);
    var g := Gather(s, idx, |idx|);
    SortByTimeWithoutPermutation(Store(g.items, [], s.sorted));
  }

  /** A Cartesian trajectory without calibration acquisitions: the calibration data is the clone. */
  lemma CalibrationWithoutFlags(s: Store<Acquisition>, info: Header)
    requires s.WellFormed() && |info.encoding| > 0 && info.encoding[0].trajectory == Cartesian
    requires Flagged(s, CALIBRATION_FLAGS, |s.items|) == Ok([])
    ensures CalibrationOf(s, info) == CloneOf(s, info)
  {
  }

  /** The image calculate appends for k-space subset k of the calibration data. */
  function SubsetImage(enc: FourierEncoding, calib: Snapshot, order: seq<seq<int>>, backward: Backward, k: int): Result<Image>
    requires 0 <= k < |order|
  {
    var g := Gather(calib.data, order[k], |order[k]|);
    if g.error.Some? then Err(g.error.value) else backward(enc, calib.info, g.items)
  }

  /** The images of subsets 0 .. n-1, each as SubsetImage computes it. */
  function SubsetSteps(enc: FourierEncoding, calib: Snapshot, order: seq<seq<int>>, backward: Backward, n: nat): (r: seq<Result<Image>>)
    requires n <= |order|
    ensures |r| == n && forall k :: 0 <= k < n ==> r[k] == SubsetImage(enc, calib, order, backward, k)
  {
    if n == 0 then [] else SubsetSteps(enc, calib, order, backward, n - 1) + [SubsetImage(enc, calib, order, backward, n - 1)]
  }

  /** The images the reconstruction loop of calculate appends, one per subset, up to the first subset that throws. */
  function SubsetImages(enc: FourierEncoding, calib: Snapshot, order: seq<seq<int>>, backward: Backward): Partial {
    Collect(SubsetSteps(enc, calib, order, backward, |order|), 0, [])
  }

  /**
   * Image k is subset k's image, and the exception, if any, is that of the first
   * subset without one; every subset has its image otherwise.
   */
  lemma SubsetImagesAre(enc: FourierEncoding, calib: Snapshot, order: seq<seq<int>>, backward: Backward)
    ensures var p := SubsetImages(enc, calib, order, backward);
            && |p.items| <= |order|
            && (forall k :: 0 <= k < |p.items| ==> SubsetImage(enc, calib, order, backward, k) == Ok(p.items[k]))
            && (p.error.None? <==> |p.items| == |order|)
            && (p.error.Some? ==> SubsetImage(enc, calib, order, backward, |p.items|) == Err(p.error.value))
  {
    var steps := SubsetSteps(enc, calib, order, backward, |order|);
    CollectIs(steps, 0, []);
    var p := Collect(steps, 0, []);
    forall k | 0 <= k < |p.items| ensures SubsetImage(enc, calib, order, backward, k) == Ok(p.items[k]) {
      assert steps[k] == Ok(p.items[k]);
    }
    if p.error.Some? {
      assert steps[|p.items|] == Err(p.error.value);
    }
  }

  /**
   * What calculate(ad) does: the encoding it stores, the header it stores, the images it
   * appends and the exception it ends with. Nothing is stored when the trajectory is
   * refused; the header is stored once the calibration data exists.
   */
  datatype Calculation = Calculation(encoding: Option<FourierEncoding>, meta: Option<Header>,
                                     appended: seq<Image>, error: Option<Error>)

  function CalculationOf(s: Store<Acquisition>, info: Header, toolboxes: bool, backward: Backward): Calculation
    requires s.WellFormed()
  {
    match TrajectoryOf(info)
    case Err(e) => Calculation(None, None, [], Some(e))
    case Ok(traj) =>
      match EncodingFor(traj, s, toolboxes)
      case Err(e) => Calculation(None, None, [], Some(e))
      case Ok(enc) =>
        match CalibrationOf(s, info)
        case Err(e) => Calculation(Some(enc), None, [], Some(e))
        case Ok(calib) =>
          match KSpaceOrderOf(|calib.data.items|, calib.sorting)
          case Err(e) => Calculation(Some(enc), Some(calib.info), [], Some(e))
          case Ok(order) =>
            var p := SubsetImages(enc, calib, order, backward);
            Calculation(Some(enc), Some(calib.info), p.items, p.error)
  }

  /**
   * calculate appends an image exactly when it completes, one per k-space subset of
   * the calibration data, each reconstructed from its subset by the chosen encoding,
   * and a Cartesian trajectory always chooses the Cartesian encoding.
   */
  lemma CalculationAppends(s: Store<Acquisition>, info: Header, toolboxes: bool, backward: Backward)
    requires s.WellFormed()
    ensures var c := CalculationOf(s, info, toolboxes, backward);
            && (c.error.None? ==>
                  && c.encoding.Some? && c.meta.Some?
                  && CalibrationOf(s, info).Ok?
                  && var calib := CalibrationOf(s, info).value;
                     && KSpaceOrderOf(|calib.data.items|, calib.sorting).Ok?
                     && var order := KSpaceOrderOf(|calib.data.items|, calib.sorting).value;
                        && |c.appended| == |order|
                        && forall k :: 0 <= k < |order| ==>
                             SubsetImage(c.encoding.value, calib, order, backward, k) == Ok(c.appended[k]))
            && (c.encoding.Some? ==> Reconstructs(c.encoding.value, info.encoding[0].trajectory))
            && (TrajectoryOf(info) == Ok(Cartesian) ==> c.encoding == Some(CartesianEncoding))
            && (c.meta.Some? ==> c.meta == Some(info))
  {
    var c := CalculationOf(s, info, toolboxes, backward);
    if TrajectoryOf(info).Ok? && CalibrationOf(s, info).Ok? {
      CalibrationKeepsHeader(s, info);
      var calib := CalibrationOf(s, info).value;
      if c.encoding.Some? && KSpaceOrderOf(|calib.data.items|, calib.sorting).Ok? {
        SubsetImagesAre(c.encoding.value, calib, KSpaceOrderOf(|calib.data.items|, calib.sorting).value, backward);
      }
    }
  }

  /** The calibration data carries ad's header. */
  lemma CalibrationKeepsHeader(s: Store<Acquisition>, info: Header)
    requires s.WellFormed() && CalibrationOf(s, info).Ok?
    ensures CalibrationOf(s, info).value.info == info
  {
  }

  /** The Cartesian branch of extract_calibration_data, against Refilled. */
  method Refill(ad: AcquisitionsVector, clone: AcquisitionsVector, idx: seq<int>) returns (o: Outcome)
    requires ad.Valid() && clone.Valid() && ad != clone && clone.sorted == ad.sorted
    modifies clone`acqs, clone`index, clone`sorted, clone`sorting, clone`info
    ensures o.Done? ==> clone.Valid() && Refilled(ad.Contents(), ad.info, idx) == Ok(clone.State())
    ensures o.Failed? ==> Refilled(ad.Contents(), ad.info, idx) == Err(o.error)
  {
    clone.Empty();
    var copied := ad.GetSubset(clone, idx);
    if copied.Failed? {
      return copied;
    }
    o := clone.SortByTime();
  }

  /** One pass of calculate's loop: subset k copied out of the calibration data and reconstructed. */
  method ReconstructSubset(cd: AcquisitionsVector, enc: FourierEncoding, order: seq<seq<int>>, backward: Backward, k: int)
    returns (r: Result<Image>)
    requires cd.Valid() && 0 <= k < |order|
    ensures r == SubsetImage(enc, cd.State(), order, backward, k)
  {
    var subset := new AcquisitionsVector(Header([]));
    var copied := cd.GetSubset(subset, order[k]);
    if copied.Failed? {
      return Err(copied.error);
    }
    r := backward(enc, subset.info, subset.acqs);
  }

  class CoilImagesVector {
    /** The images, as a GadgetronImagesVector holds them. */
    const vector: ImagesVector
    /** sptr_enc_: the encoding chosen by the last calculate, if any. */
    var encoding: Option<FourierEncoding>

    /** CoilImagesVector(): no images, no encoding. */
    constructor()
      ensures fresh(vector) && vector.images == [] && vector.index == [] && vector.Valid() && encoding.None?
    {
      vector := new ImagesVector(Header([]));
      encoding := None;
    }

    /** The encoding choice of calculate, against EncodingFor. */
    method ChooseEncoding(ad: AcquisitionsVector, traj: TrajectoryType, toolboxes: bool) returns (r: Result<FourierEncoding>)
      ensures r == EncodingFor(traj, ad.Contents(), toolboxes)
    {
      if traj == Cartesian {
        return Ok(CartesianEncoding);
      }
      if traj == Other || traj == Radial || traj == GoldenAngle || traj == Spiral {
        var dims := ad.GetTrajectoryDimensions();
        if dims.Err? {
          return Err(dims.error);
        }
        if dims.value == 0 {
          return Err(Assertion);
        }
        if !toolboxes {
          return Err(Unsupported);
        }
        return if traj == Other then Ok(RpeEncoding) else Ok(NonCartesian2DEncoding);
      }
      r := Err(Unsupported);
    }

    /** extract_calibration_data(ad), against CalibrationOf. */
    method ExtractCalibrationData(ad: AcquisitionsVector) returns (r: Result<AcquisitionsVector>)
      requires ad.Valid()
      ensures r.Ok? ==> fresh(r.value) && r.value.Valid() && CalibrationOf(ad.Contents(), ad.info) == Ok(r.value.State())
      ensures r.Err? ==> CalibrationOf(ad.Contents(), ad.info) == Err(r.error)
    {
      var clone :- ad.Clone();
      var traj :- TrajectoryOf(ad.info);
      if traj != Cartesian {
        return Ok(clone);
      }
      var idx :- ad.GetFlaggedAcquisitionsIndex(CALIBRATION_FLAGS);
      if |idx| < 1 {
        return Ok(clone);
      }
      var refilled := Refill(ad, clone, idx);
      if refilled.Failed? {
        return Err(refilled.error);
      }
      r := Ok(clone);
    }

    /**
     * calculate(ad), against CalculationOf, with the backward transform of the chosen
     * encoding given as `backward` and the toolbox build switch as `toolboxes`.
     */
    method Calculate(ad: AcquisitionsVector, toolboxes: bool, backward: Backward) returns (o: Outcome)
      requires ad.Valid()
      modifies this`encoding, vector`images, vector`meta
      ensures var c := CalculationOf(ad.Contents(), ad.info, toolboxes, backward);
              && encoding == (if c.encoding.Some? then c.encoding else old(encoding))
              && vector.meta == (if c.meta.Some? then c.meta.value else old(vector.meta))
              && vector.images == old(vector.images) + c.appended
              && o == OutcomeOf(c.error)
    {
      var traj := TrajectoryOf(ad.info);
      if traj.Err? {
        return Failed(traj.error);
      }
      var enc := ChooseEncoding(ad, traj.value, toolboxes);
      if enc.Err? {
        return Failed(enc.error);
      }
      encoding := Some(enc.value);
      var calib := ExtractCalibrationData(ad);
      if calib.Err? {
        return Failed(calib.error);
      }
      var cd := calib.value;
      vector.SetMetaData(cd.info);
      var order := cd.GetKSpaceOrder();
      if order.Err? {
        return Failed(order.error);
      }
      o := Reconstruct(cd, enc.value, order.value, backward);
    }

    /** The loop of calculate: one image per k-space subset, appended in subset order. */
    method Reconstruct(cd: AcquisitionsVector, enc: FourierEncoding, order: seq<seq<int>>, backward: Backward) returns (o: Outcome)
      requires cd.Valid()
      modifies vector`images
      ensures var p := SubsetImages(enc, cd.State(), order, backward);
              vector.images == old(vector.images) + p.items && o == OutcomeOf(p.error)
    {
      ghost var start := vector.images;
      ghost var calib := cd.State();
      ghost var steps := SubsetSteps(enc, calib, order, backward, |order|);
      ghost var acc: seq<Image> := [];
      var i := 0;
      while i < |order|
        invariant 0 <= i <= |order|
        invariant cd.State() == calib && cd.Valid()
        invariant vector.images == start + acc
        invariant Collect(steps, 0, []) == Collect(steps, i, acc)
      {
        var im := ReconstructSubset(cd, enc, order, backward, i);
        if im.Err? {
          return Failed(im.error);
        }
        vector.Append(im.value);
        acc := acc + [im.value];
        i := i + 1;
      }
      o := Done;
    }
  }
}

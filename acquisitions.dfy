/**
 * AcquisitionsVector, the in-memory acquisition container: a vector of stored
 * acquisitions, the optional permutation `index_` through which logical
 * acquisition numbers are resolved, the `sorted_` flag, the k-space table
 * `sorting_` and the acquisition header. Every method that changes the
 * container states its whole new state in terms of the value-level
 * definitions of the modules it imports.
 */
module Acquisitions {
  import opened Complexes
  import opened Errors
  import opened Ismrmrd
  import opened Stores
  import opened KSpace
  import opened KSpaceOrder
  import opened KSpaceSorting
  import StableOrder
  import opened AcquisitionQueries
  import opened ContainerWalk
  import opened ContainerAlgebra

  class AcquisitionsVector {
    var acqs: seq<Acquisition>
    var index: seq<int>
    var sorted: bool
    var sorting: seq<KSpaceSubset>
    var info: Header

    /** The stored acquisitions as the algorithms see them. */
    function Contents(): Store<Acquisition>
      reads `acqs, `index, `sorted
    {
      Store(acqs, index, sorted)
    }

    predicate Valid()
      reads `acqs, `index, `sorted
    {
      Contents().WellFormed()
    }

    /** AcquisitionsVector(info): no acquisitions, no permutation, not sorted. */
    constructor(info: Header)
      ensures acqs == [] && index == [] && !sorted && sorting == [] && this.info == info
      ensures Valid()
    {
      acqs := [];
      index := [];
      sorted := false;
      sorting := [];
      this.info := info;
    }

    /** number(). */
    function Number(): nat
      reads `acqs
    {
      |acqs|
    }

    /** append_acquisition: a copy goes to the end of the storage; the permutation is not touched. */
    method AppendAcquisition(acq: Acquisition)
      modifies `acqs
      ensures acqs == old(acqs) + [acq]
    {
      acqs := acqs + [acq];
    }

    /**
     * get_acquisition(num): the acquisition at logical position num, and the status
     * 0 when the acquisition is to be ignored, 1 otherwise.
     */
    method GetAcquisition(num: int) returns (r: Result<Acquisition>, status: int)
      ensures r == Contents().Read(num)
      ensures r.Ok? ==> (status == 0 <==> ToBeIgnored(r.value))
    {
      r := Contents().Read(num);
      status := if r.Ok? && ToBeIgnored(r.value) then 0 else 1;
    }

    /** set_acquisition(num, acq): the stored acquisition that position num resolves to is replaced. */
    method SetAcquisition(num: int, acq: Acquisition) returns (o: Outcome)
      requires Valid()
      modifies `acqs
      ensures Contents().Read(num) == (if o.Done? then Ok(acq) else old(Contents().Read(num)))
      ensures o.Done? <==> old(Contents().Index(num)).Ok?
      ensures o.Failed? ==> acqs == old(acqs)
      ensures forall j :: old(Contents().Index(j)).Ok? && j != num ==> Contents().Read(j) == old(Contents().Read(j))
    {
      var w := Contents().Write(num, acq);
      if w.Err? {
        return Failed(w.error);
      }
      WriteThenReadAll(Contents(), num, acq);
      acqs := w.value;
      o := Done;
    }

    /** empty(): the acquisitions and the permutation are dropped; the flags and the table are kept. */
    method Empty()
      modifies `acqs, `index
      ensures acqs == [] && index == []
      ensures Valid()
    {
      acqs := [];
      index := [];
    }

    /** organise_kspace, against the value-level Organise. */
    method OrganiseKSpace() returns (o: Outcome)
      requires Valid()
      modifies `sorting
      ensures sorting == Organise(Contents(), info).sorting
      ensures o == OutcomeOf(Organise(Contents(), info).error)
    {
      sorting := [];
      if |info.encoding| > 1 {
        return Failed(MultipleEncodings);
      }
      if |info.encoding| == 0 {
        return Failed(Undefined);
      }
      var dims := HeaderDims(info);
      var table := NewTable(dims);
      var placed, error := PlaceAcquisitions(Contents(), dims, table);
      if error.Some? {
        sorting := placed;
        return Failed(error.value);
      }
      sorting := RemoveEmpty(placed);
      o := Done;
    }

    /**
     * sort_by_time: the permutation is resized to number(), refilled with 0 .. N-1 and
     * stably sorted by the time stamps read through it; then the k-space is organised,
     * and the container counts as sorted once that has succeeded.
     */
    method SortByTime() returns (o: Outcome)
      requires Valid()
      modifies `index, `sorting, `sorted
      ensures index == TimeOrder(old(Contents()))
      ensures Valid() && FullyIndexedNow()
      ensures sorting == Organise(Store(acqs, index, old(sorted)), info).sorting
      ensures o == OutcomeOf(Organise(Store(acqs, index, old(sorted)), info).error)
      ensures sorted == (old(sorted) || o.Done?)
    {
      ghost var s := Contents();
      var n := |acqs|;
      index := Resized(index, n);
      if n > 0 {
        var keys := ReadTimeKeys(s, Contents());
        index := StableSort(keys, n);
      }
      SortByTimePermutes(s);
      o := OrganiseKSpace();
      if o.Done? {
        sorted := true;
      }
    }

    /** Every acquisition number below number() resolves. */
    predicate FullyIndexedNow()
      reads `acqs, `index, `sorted
    {
      Contents().FullyIndexed()
    }

    /** sort(): the same as sort_by_time. */
    method Sort() returns (o: Outcome)
      requires Valid()
      modifies `index, `sorting, `sorted
      ensures index == TimeOrder(old(Contents()))
      ensures Valid()
      ensures sorting == Organise(Store(acqs, index, old(sorted)), info).sorting
      ensures o == OutcomeOf(Organise(Store(acqs, index, old(sorted)), info).error)
      ensures sorted == (old(sorted) || o.Done?)
    {
      o := SortByTime();
    }

    /** get_kspace_order, against KSpaceOrderOf. */
    method GetKSpaceOrder() returns (r: Result<seq<seq<int>>>)
      ensures r == KSpaceOrderOf(|acqs|, sorting)
    {
      if |acqs| < 1 {
        return Err(EmptyContainer);
      }
      if |sorting| == 0 {
        return Err(NoSorting);
      }
      var output: seq<seq<int>> := [];
      var i := 0;
      while i < |sorting|
        invariant 0 <= i <= |sorting|
        invariant output == NonEmptyLists(sorting[..i])
      {
        assert sorting[..i + 1][..i] == sorting[..i];
        if sorting[i].idxSet != [] {
          output := output + [sorting[i].idxSet];
        }
        i := i + 1;
      }
      assert sorting[..i] == sorting;
      r := Ok(output);
    }

    /** get_flagged_acquisitions_index, against Flagged. */
    method GetFlaggedAcquisitionsIndex(flags: seq<FlagNumber>) returns (r: Result<seq<int>>)
      ensures r == Flagged(Contents(), flags, |acqs|)
    {
      if |flags| == 0 {
        return Ok([]);
      }
      var found: seq<int> := [];
      var i := 0;
      while i < |acqs|
        invariant 0 <= i <= |acqs|
        invariant Flagged(Contents(), flags, i) == Ok(found)
      {
        var acq := Contents().Read(i);
        if acq.Err? {
          FlaggedStopped(Contents(), flags, i + 1, |acqs|);
          return Err(acq.error);
        }
        var one := false;
        var k := 0;
        while k < |flags|
          invariant 0 <= k <= |flags|
          invariant one == exists f :: f in flags[..k] && IsFlagSet(acq.value.flags, f)
        {
          assert flags[..k + 1] == flags[..k] + [flags[k]];
          one := one || IsFlagSet(acq.value.flags, flags[k]);
          k := k + 1;
        }
        assert flags[..k] == flags;
        if one {
          found := found + [i];
        }
        i := i + 1;
      }
      r := Ok(found);
    }

    /** get_trajectory_dimensions, against TrajectoryDimensions. */
    method GetTrajectoryDimensions() returns (r: Result<U16>)
      ensures r == TrajectoryDimensions(Contents())
    {
      if |acqs| == 0 {
        return Err(Assertion);
      }
      r := TrajectoryLoop(Contents(), ToBeIgnored);
    }

    /** The state the calibration code hands on: acquisitions, permutation, flag, table and header. */
    function State(): Snapshot
      reads `acqs, `index, `sorted, `sorting, `info
    {
      Snapshot(Contents(), sorting, info)
    }

    /**
     * clone(): a new container with this one's header and copies of the acquisitions at
     * logical positions 0 .. N-1, against CloneOf.
     */
    method Clone() returns (r: Result<AcquisitionsVector>)
      requires Valid()
      ensures r.Ok? ==> fresh(r.value) && r.value.Valid() && CloneOf(Contents(), info) == Ok(r.value.State())
      ensures r.Err? ==> CloneOf(Contents(), info) == Err(r.error)
    {
      var c := new AcquisitionsVector(info);
      var error := c.AppendRead(Contents());
      if error.Some? {
        return Err(error.value);
      }
      c.sorted := sorted;
      if sorted {
        var o := c.OrganiseKSpace();
        if o.Failed? {
          return Err(o.error);
        }
      }
      r := Ok(c);
    }

    /**
     * The copy loop of clone(): the acquisitions s reads at positions 0 .. N-1 are
     * appended in that order, up to the first read that throws.
     */
    method AppendRead(s: Store<Acquisition>) returns (error: Option<Error>)
      requires acqs == []
      modifies `acqs
      ensures var g := Flattened(s); acqs == g.items && error == g.error
    {
      var n := |s.items|;
      var i := 0;
      while i < n
        invariant 0 <= i <= n
        invariant Gather(s, StableOrder.Iota(n), i) == Copy(acqs, None)
      {
        var acq := s.Read(i);
        if acq.Err? {
          GatherStopped(s, StableOrder.Iota(n), i + 1, n);
          return Some(acq.error);
        }
        AppendAcquisition(acq.value);
        i := i + 1;
      }
      error := None;
    }

    /**
     * get_subset(subset, idx): the subset takes this container's header, must be empty,
     * and receives copies of the listed acquisitions in list order.
     */
    method GetSubset(subset: AcquisitionsVector, idx: seq<int>) returns (o: Outcome)
      requires subset.Valid()
      modifies subset`acqs, subset`info
      ensures subset.info == old(info)
      ensures old(|subset.acqs|) > 0 ==> o == Failed(NotEmpty) && subset.acqs == old(subset.acqs)
      ensures old(|subset.acqs|) == 0 ==>
        var g := Gather(old(Contents()), idx, |idx|);
        subset.acqs == g.items && o == OutcomeOf(g.error)
      ensures subset.Valid()
    {
      ghost var s := Contents();
      var source := Contents();
      subset.info := info;
      if |subset.acqs| > 0 {
        return Failed(NotEmpty);
      }
      var i := 0;
      while i < |idx|
        invariant 0 <= i <= |idx|
        invariant Gather(s, idx, i) == Copy(subset.acqs, None)
        invariant subset.Valid() && subset.info == old(info)
      {
        var acq := source.Read(idx[i]);
        if acq.Err? {
          GatherStopped(s, idx, i + 1, |idx|);
          return Failed(acq.error);
        }
        subset.AppendAcquisition(acq.value);
        i := i + 1;
      }
      o := Done;
    }

    /**
     * set_subset(subset, idx): the subset must hold exactly |idx| acquisitions; its
     * acquisition i replaces the one at logical position idx[i], in list order. When the
     * subset is this container, each read sees the writes made before it.
     */
    method SetSubset(subset: AcquisitionsVector, idx: seq<int>) returns (o: Outcome)
      requires Valid()
      modifies `acqs
      ensures old(|subset.acqs|) != |idx| ==> o == Failed(SizeMismatch) && acqs == old(acqs)
      ensures old(|subset.acqs|) == |idx| ==>
        var c := Scatter(old(Contents()), old(subset.Contents()), subset == this, idx, |idx|);
        acqs == c.items && o == OutcomeOf(c.error)
      ensures Valid()
    {
      if |subset.acqs| != |idx| {
        return Failed(SizeMismatch);
      }
      ghost var target := Contents();
      ghost var sub := subset.Contents();
      var i := 0;
      var error: Option<Error> := None;
      while i < |idx| && error.None?
        invariant 0 <= i <= |idx|
        invariant Scatter(target, sub, subset == this, idx, i) == Copy(acqs, error)
        invariant subset != this ==> subset.Contents() == sub
        invariant index == target.index && sorted == target.sorted && |acqs| == |target.items|
      {
        error := SetOne(subset, idx, i, target, sub);
        i := i + 1;
      }
      if error.Some? {
        ScatterStopped(target, sub, subset == this, idx, i, |idx|);
      }
      WellFormedWithItems(target, acqs);
      o := OutcomeOf(error);
    }

    /** One pass of set_subset's loop: acquisition i of the subset is written at position idx[i]. */
    method SetOne(subset: AcquisitionsVector, idx: seq<int>, i: nat, ghost target: Store<Acquisition>, ghost sub: Store<Acquisition>)
      returns (error: Option<Error>)
      requires i < |idx| && Scatter(target, sub, subset == this, idx, i) == Copy(acqs, None)
      requires subset != this ==> subset.Contents() == sub
      requires index == target.index && sorted == target.sorted
      modifies `acqs
      ensures error.None? ==> Scatter(target, sub, subset == this, idx, i + 1) == Copy(acqs, None)
      ensures error.Some? ==> Scatter(target, sub, subset == this, idx, i + 1) == Copy(acqs, error) && acqs == old(acqs)
    {
      var acq := subset.Contents().Read(i);
      if acq.Err? {
        return Some(acq.error);
      }
      var w := Contents().Write(idx[i], acq.value);
      if w.Err? {
        return Some(w.error);
      }
      acqs := w.value;
      error := None;
    }

    /**
     * What the algebra loop leaves after the walk w: its acquisitions, and then either
     * the walk's exception with the flag and the table as they were (sorted0, sorting0),
     * or the container marked sorted with the table organise_kspace rebuilds.
     */
    predicate AfterWalk(w: WalkEnd<Acquisition>, o: Outcome, sorted0: bool, sorting0: seq<KSpaceSubset>)
      reads this
    {
      && acqs == w.items
      && (w.error.Some? ==> o == Failed(w.error.value) && sorted == sorted0 && sorting == sorting0)
      && (w.error.None? ==>
            && sorted
            && sorting == Organise(Contents(), info).sorting
            && o == OutcomeOf(Organise(Contents(), info).error))
    }

    /**
     * The algebra loop shared by axpby, both xapyb forms, binary_op, semibinary_op and
     * unary_op, on the input containers ins in the order the loop tests them. The
     * output is appended to when it is empty and overwritten at its kept positions
     * otherwise; afterwards the container is marked sorted and organised. The inputs
     * are the values they held on entry: the loop reads an input at a position it has
     * not yet written, so an input that is this container is read unchanged.
     */
    method Combine(ins: seq<Store<Acquisition>>, f: seq<Acquisition> -> Result<Acquisition>) returns (o: Outcome)
      requires Valid() && |ins| >= 1
      modifies `acqs, `sorted, `sorting
      ensures Valid() && index == old(index)
      ensures AfterWalk(WalkFrom(ins, old(Contents()), ToBeIgnored, ToBeIgnored, f), o, old(sorted), old(sorting))
    {
      var error := WalkInto(ins, f);
      if error.Some? {
        return Failed(error.value);
      }
      sorted := true;
      o := OrganiseKSpace();
    }

    /** The loop of Combine: the acquisitions are appended or overwritten in place. */
    method WalkInto(ins: seq<Store<Acquisition>>, f: seq<Acquisition> -> Result<Acquisition>) returns (error: Option<Error>)
      requires Valid() && |ins| >= 1
      modifies `acqs
      ensures Valid()
      ensures acqs == WalkFrom(ins, old(Contents()), ToBeIgnored, ToBeIgnored, f).items
      ensures error == WalkFrom(ins, old(Contents()), ToBeIgnored, ToBeIgnored, f).error
    {
      var out := Contents();
      var append := |acqs| < 1;
      var items := acqs;
      var cur := Zeros(|ins|);
      var k := 0;
      while !Exhausted(ins, cur)
        invariant CursorsInRange(ins, cur)
        invariant !append ==> |items| == |out.items|
        invariant Walk(ins, out, ToBeIgnored, ToBeIgnored, f, append, cur, k, items)
               == WalkFrom(ins, out, ToBeIgnored, ToBeIgnored, f)
        invariant append ==> |out.index| == 0 && k == |items|
        decreases Remaining(ins, cur), |items| - k
      {
        RemainingNonNegative(ins, cur);
        cur, k, items, error := WalkStep(ins, out, ToBeIgnored, ToBeIgnored, f, append, cur, k, items);
        if error.Some? {
          acqs := items;
          return;
        }
      }
      WalkStops(ins, out, ToBeIgnored, ToBeIgnored, f, append, cur, k, items);
      acqs := items;
      error := None;
    }

    /** axpby(a, x, b, y): this := a*x + b*y, acquisition by acquisition; x and y must be sorted. */
    method Axpby(a: Complex, x: AcquisitionsVector, b: Complex, y: AcquisitionsVector) returns (o: Outcome)
      requires Valid()
      modifies `acqs, `sorted, `sorting
      ensures !old(x.sorted) || !old(y.sorted) ==> o == Failed(Unsorted) && unchanged(`acqs, `sorted, `sorting)
      ensures old(x.sorted) && old(y.sorted) ==>
        AfterWalk(WalkFrom([old(x.Contents()), old(y.Contents())], old(Contents()), ToBeIgnored, ToBeIgnored, AxpbyRow(a, b)),
                  o, old(sorted), old(sorting))
      ensures Valid()
    {
      if !x.sorted || !y.sorted {
        return Failed(Unsorted);
      }
      o := Combine([x.Contents(), y.Contents()], AxpbyRow(a, b));
    }

    /** xapyb(x, a, y, b) with containers a and b: this := a*x + b*y; all four must be sorted. */
    method Xapyb(x: AcquisitionsVector, a: AcquisitionsVector, y: AcquisitionsVector, b: AcquisitionsVector) returns (o: Outcome)
      requires Valid()
      modifies `acqs, `sorted, `sorting
      ensures !old(x.sorted) || !old(y.sorted) || !old(a.sorted) || !old(b.sorted) ==>
        o == Failed(Unsorted) && unchanged(`acqs, `sorted, `sorting)
      ensures old(x.sorted) && old(y.sorted) && old(a.sorted) && old(b.sorted) ==>
        AfterWalk(WalkFrom([old(x.Contents()), old(y.Contents()), old(a.Contents()), old(b.Contents())],
                         old(Contents()), ToBeIgnored, ToBeIgnored, Xapyb4Row()),
                  o, old(sorted), old(sorting))
      ensures Valid()
    {
      if !x.sorted || !y.sorted || !a.sorted || !b.sorted {
        return Failed(Unsorted);
      }
      o := Combine([x.Contents(), y.Contents(), a.Contents(), b.Contents()], Xapyb4Row());
    }

    /** xapyb(x, a, y, b) with a scalar a and a container b; x, y and b must be sorted. */
    method XapybScalarA(x: AcquisitionsVector, a: Complex, y: AcquisitionsVector, b: AcquisitionsVector) returns (o: Outcome)
      requires Valid()
      modifies `acqs, `sorted, `sorting
      ensures !old(x.sorted) || !old(y.sorted) || !old(b.sorted) ==>
        o == Failed(Unsorted) && unchanged(`acqs, `sorted, `sorting)
      ensures old(x.sorted) && old(y.sorted) && old(b.sorted) ==>
        AfterWalk(WalkFrom([old(x.Contents()), old(y.Contents()), old(b.Contents())],
                         old(Contents()), ToBeIgnored, ToBeIgnored, Xapyb3Row(a)),
                  o, old(sorted), old(sorting))
      ensures Valid()
    {
      if !x.sorted || !y.sorted || !b.sorted {
        return Failed(Unsorted);
      }
      o := Combine([x.Contents(), y.Contents(), b.Contents()], Xapyb3Row(a));
    }

    /** binary_op(x, y, f): multiply, divide, maximum, minimum and power of two containers. */
    method BinaryOp(x: AcquisitionsVector, y: AcquisitionsVector, f: (Complex, Complex) -> Complex) returns (o: Outcome)
      requires Valid()
      modifies `acqs, `sorted, `sorting
      ensures !old(x.sorted) || !old(y.sorted) ==> o == Failed(Unsorted) && unchanged(`acqs, `sorted, `sorting)
      ensures old(x.sorted) && old(y.sorted) ==>
        AfterWalk(WalkFrom([old(x.Contents()), old(y.Contents())], old(Contents()), ToBeIgnored, ToBeIgnored, BinaryRow(f)),
                  o, old(sorted), old(sorting))
      ensures Valid()
    {
      if !x.sorted || !y.sorted {
        return Failed(Unsorted);
      }
      o := Combine([x.Contents(), y.Contents()], BinaryRow(f));
    }

    /** semibinary_op(x, c, f): multiply, add, maximum, minimum and power with a scalar. */
    method SemibinaryOp(x: AcquisitionsVector, c: Complex, f: (Complex, Complex) -> Complex) returns (o: Outcome)
      requires Valid()
      modifies `acqs, `sorted, `sorting
      ensures !old(x.sorted) ==> o == Failed(Unsorted) && unchanged(`acqs, `sorted, `sorting)
      ensures old(x.sorted) ==>
        AfterWalk(WalkFrom([old(x.Contents())], old(Contents()), ToBeIgnored, ToBeIgnored, SemibinaryRow(c, f)),
                  o, old(sorted), old(sorting))
      ensures Valid()
    {
      if !x.sorted {
        return Failed(Unsorted);
      }
      o := Combine([x.Contents()], SemibinaryRow(c, f));
    }

    /** unary_op(x, f): exp, log, sqrt, sign and abs. */
    method UnaryOp(x: AcquisitionsVector, f: Complex -> Complex) returns (o: Outcome)
      requires Valid()
      modifies `acqs, `sorted, `sorting
      ensures !old(x.sorted) ==> o == Failed(Unsorted) && unchanged(`acqs, `sorted, `sorting)
      ensures old(x.sorted) ==>
        AfterWalk(WalkFrom([old(x.Contents())], old(Contents()), ToBeIgnored, ToBeIgnored, UnaryRow(f)),
                  o, old(sorted), old(sorting))
      ensures Valid()
    {
      if !x.sorted {
        return Failed(Unsorted);
      }
      o := Combine([x.Contents()], UnaryRow(f));
    }

    /** dot(other): the sum of dot(a, b) over the paired kept acquisitions. */
    method Dot(other: AcquisitionsVector) returns (r: Result<Complex>)
      ensures r == ContainerDot(Contents(), other.Contents())
    {
      r := Reduce([Contents(), other.Contents()], DotRow, Summed);
    }

    /** sum(): the sum of sum(a) over the kept acquisitions. */
    method Sum() returns (r: Result<Complex>)
      ensures r == ContainerSum(Contents())
    {
      r := Reduce([Contents()], SumRow, Summed);
    }

    /** max(): the first max(a) of largest real part over the kept acquisitions, or zero. */
    method Max() returns (r: Result<Complex>)
      ensures r == ContainerMax(Contents())
    {
      r := Reduce([Contents()], MaxRow, Largest);
    }

    /** The sum of squares norm(a)^2 whose square root norm() returns. */
    method NormSq() returns (r: Result<real>)
      ensures r == ContainerNormSq(Contents())
    {
      var z := Reduce([Contents()], NormRow, Summed);
      if z.Err? {
        return Err(z.error);
      }
      r := Ok(z.value.re);
    }
  }

  /**
   * The loop of get_trajectory_dimensions, with get_acquisition's status given by the
   * filter `ignored`.
   */
  method TrajectoryLoop(s: Store<Acquisition>, ignored: Acquisition -> bool) returns (r: Result<U16>)
    ensures r == TrajectoryDims(s, ignored, |s.items|)
  {
    var na := |s.items|;
    var d: U16 := NO_TRAJECTORY;
    var i := 0;
    while i < na
      invariant 0 <= i <= na
      invariant TrajectoryDims(s, ignored, i) == Ok(d)
    {
      var acq := s.Read(i);
      if acq.Err? {
        TrajectoryDimsStopped(s, ignored, i + 1, na);
        return Err(acq.error);
      }
      if !ignored(acq.value) {
        if d == NO_TRAJECTORY {
          d := acq.value.trajectoryDimensions;
        } else if acq.value.trajectoryDimensions != d {
          TrajectoryDimsStopped(s, ignored, i + 1, na);
          return Err(SizeMismatch);
        }
      }
      i := i + 1;
    }
    r := Ok(d);
  }

  /**
   * The key loop of sort_by_time: the time stamp of every acquisition number, read
   * through the resized permutation `resized` of s.
   */
  method ReadTimeKeys(ghost s: Store<Acquisition>, resized: Store<Acquisition>) returns (keys: seq<int>)
    requires s.WellFormed() && resized == Store(s.items, Resized(s.index, |s.items|), s.sorted)
    ensures keys == TimeKeys(s)
  {
    var n := |resized.items|;
    keys := [];
    var i := 0;
    while i < n
      invariant 0 <= i <= n && |keys| == i
      invariant forall k :: 0 <= k < i ==> keys[k] == TimeKeys(s)[k]
    {
      TimeKeysRead(s, i);
      var acq := resized.Read(i);
      keys := keys + [acq.value.acquisitionTimeStamp];
      i := i + 1;
    }
  }

  /** An acquisition container's acquisitions, permutation and flag, k-space table and header. */
  datatype Snapshot = Snapshot(data: Store<Acquisition>, sorting: seq<KSpaceSubset>, info: Header)

  /**
   * What clone() produces: the acquisitions read at positions 0 .. N-1, no permutation,
   * the same flag and header, and, for a sorted container, the table organise_kspace
   * builds for the copy; a failed read or a failed organisation throws.
   */
  function CloneOf(s: Store<Acquisition>, info: Header): Result<Snapshot> {
    var g := Flattened(s);
    if g.error.Some? then Err(g.error.value)
    else
      var copy := Store(g.items, [], s.sorted);
      if !s.sorted then Ok(Snapshot(copy, [], info))
      else
        var org := Organise(copy, info);
        if org.error.Some? then Err(org.error.value) else Ok(Snapshot(copy, org.sorting, info))
  }

  /**
   * The clone reads at every position what the original reads there, holds as many
   * acquisitions and has no permutation; an unsorted container that reads at every
   * position is always cloned.
   */
  lemma CloneReads(s: Store<Acquisition>, info: Header)
    ensures CloneOf(s, info).Ok? ==>
      var c := CloneOf(s, info).value.data;
      && |c.items| == |s.items| && c.index == [] && c.sorted == s.sorted
      && forall i :: 0 <= i < |s.items| ==> c.Read(i) == s.Read(i)
    ensures s.Readable() && !s.sorted ==> CloneOf(s, info).Ok?
    ensures CloneOf(s, info).Ok? ==> s.Readable()
  {
    var g := Flattened(s);
    if g.error.None? {
      assert |g.items| == |s.items|;
      forall i | 0 <= i < |s.items| ensures s.Read(i) == Ok(g.items[i]) {
        assert StableOrder.Iota(|s.items|)[i] == i;
      }
    }
    if s.Readable() {
      FlattenedReads(s);
    }
  }

  /**
   * The seven nested loops of organise_kspace over average, slice, contrast, phase,
   * repetition, set and segment, written as one loop over the row-major position:
   * every subset of the bounds, in that order, with an empty list.
   */
  method NewTable(dims: seq<int>) returns (t: seq<KSpaceSubset>)
    requires |dims| == 7
    ensures t == Filled([], dims)
  {
    t := [];
    var count := SubsetCount(dims);
    var p := 0;
    while p < count
      invariant 0 <= p <= count
      invariant t == Filled([], dims)[..p]
    {
      FilledEmpty(dims, p);
      t := t + [KSpaceSubset(CandidateTag(p, dims), [])];
      p := p + 1;
    }
  }

  /**
   * The loop of organise_kspace over the acquisitions: acquisition i is read and its
   * number added to the subset at its row-major position, which `.at` checks.
   */
  method PlaceAcquisitions(s: Store<Acquisition>, dims: seq<int>, table: seq<KSpaceSubset>)
    returns (t: seq<KSpaceSubset>, error: Option<Error>)
    requires |dims| == 7 && table == Filled([], dims)
    ensures t == Filled(Positions(s, dims, |s.items|).pos, dims)
    ensures error == Positions(s, dims, |s.items|).error
  {
    t := table;
    var i := 0;
    ghost var pos: seq<int> := [];
    while i < |s.items|
      invariant 0 <= i <= |s.items|
      invariant Positions(s, dims, i) == Scan(pos, None)
      invariant t == Filled(pos, dims)
    {
      PlaceStep(s, dims, i, pos);
      var acq := s.Read(i);
      if acq.Err? {
        return t, Some(acq.error);
      }
      var at := RowMajor(TagFromAcquisition(acq.value), dims);
      if !(0 <= at < |t|) {
        return t, Some(OutOfRange);
      }
      FilledStep(pos, at, dims);
      t := t[at := AddIdxToSet(t[at], i)];
      pos := pos + [at];
      i := i + 1;
    }
    error := None;
  }

  /** One acquisition of the organise_kspace loop: it fails to read, falls outside the table, or is placed. */
  lemma PlaceStep(s: Store<Acquisition>, dims: seq<int>, i: nat, pos: seq<int>)
    requires |dims| == 7 && i < |s.items| && Positions(s, dims, i) == Scan(pos, None)
    ensures s.Read(i).Err? ==> Positions(s, dims, |s.items|) == Scan(pos, Some(s.Read(i).error))
    ensures s.Read(i).Ok? && !(0 <= RowMajor(TagFromAcquisition(s.Read(i).value), dims) < SubsetCount(dims)) ==>
      Positions(s, dims, |s.items|) == Scan(pos, Some(OutOfRange))
    ensures s.Read(i).Ok? && 0 <= RowMajor(TagFromAcquisition(s.Read(i).value), dims) < SubsetCount(dims) ==>
      Positions(s, dims, i + 1) == Scan(pos + [RowMajor(TagFromAcquisition(s.Read(i).value), dims)], None)
  {
    if !PositionOf(s, i, dims).Ok? {
      PositionsStopped(s, dims, i + 1, |s.items|);
    }
  }

  /** The erase-remove_if of organise_kspace: the empty subsets go, the others keep their order. */
  method RemoveEmpty(ss: seq<KSpaceSubset>) returns (r: seq<KSpaceSubset>)
    ensures r == DropEmpty(ss)
  {
    r := [];
    var m := 0;
    while m < |ss|
      invariant 0 <= m <= |ss|
      invariant r == DropEmpty(ss[..m])
    {
      DropEmptyStep(ss, m);
      if ss[m].idxSet != [] {
        r := r + [ss[m]];
      }
      m := m + 1;
    }
    assert ss[..m] == ss;
  }

  /** Writing through a resolved position changes what that position reads and nothing else. */
  lemma WriteThenReadAll(s: Store<Acquisition>, i: int, x: Acquisition)
    requires s.WellFormed() && s.Write(i, x).Ok?
    ensures Store(s.Write(i, x).value, s.index, s.sorted).Read(i) == Ok(x)
    ensures forall j :: s.Index(j).Ok? && j != i ==> Store(s.Write(i, x).value, s.index, s.sorted).Read(j) == s.Read(j)
  {
    forall j | s.Index(j).Ok? && j != i
      ensures Store(s.Write(i, x).value, s.index, s.sorted).Read(j) == s.Read(j)
    {
      WriteThenRead(s, i, j, x);
    }
    WriteThenRead(s, i, i, x);
  }

  /** std::iota followed by std::stable_sort by keys, as a stable insertion of each position in turn. */
  method StableSort(keys: seq<int>, n: nat) returns (r: seq<int>)
    requires n <= |keys|
    ensures r == StableOrder.StableOrder(keys, n)
  {
    r := [];
    var i := 0;
    while i < n
      invariant 0 <= i <= n
      invariant r == StableOrder.StableOrder(keys, i)
    {
      var p := InsertionPoint(r, i, keys);
      r := r[..p] + [i] + r[p..];
      i := i + 1;
    }
  }

  /** The scan for the first entry whose key exceeds keys[i]. */
  method InsertionPoint(r: seq<int>, i: int, keys: seq<int>) returns (p: nat)
    requires 0 <= i < |keys| && StableOrder.EntriesBelow(r, |keys|)
    ensures p == StableOrder.InsertPos(r, i, keys)
  {
    p := 0;
    while p < |r| && keys[r[p]] <= keys[i]
      invariant 0 <= p <= |r|
      invariant forall m :: 0 <= m < p ==> keys[r[m]] <= keys[i]
    {
      p := p + 1;
    }
    InsertPosIs(r, i, keys, p);
  }

  /** The first entry whose key exceeds keys[i] is where the insertion goes. */
  lemma {:induction false} InsertPosIs(r: seq<int>, i: int, keys: seq<int>, p: nat)
    requires 0 <= i < |keys| && StableOrder.EntriesBelow(r, |keys|) && p <= |r|
    requires forall m :: 0 <= m < p ==> keys[r[m]] <= keys[i]
    requires p < |r| ==> keys[i] < keys[r[p]]
    ensures StableOrder.InsertPos(r, i, keys) == p
    decreases |r|
  {
    if p > 0 {
      assert StableOrder.EntriesBelow(r[1..], |keys|);
      InsertPosIs(r[1..], i, keys, p - 1);
    }
  }

  /**
   * The reduction loops of dot, sum, max and norm: the walk over the inputs appends
   * one value per step, and the running total takes it in at once.
   */
  method Reduce(ins: seq<Store<Acquisition>>, f: seq<Acquisition> -> Result<Complex>, kind: Reduction) returns (r: Result<Complex>)
    requires |ins| >= 1
    ensures r == Reduced(ins, f, kind)
  {
    var cur := Zeros(|ins|);
    var z := Zero;
    var k := 0;
    var items: seq<Complex> := [];
    while !Exhausted(ins, cur)
      invariant CursorsInRange(ins, cur) && k == |items|
      invariant z == Total(items, kind)
      invariant Walk(ins, NoOutput(), ToBeIgnored, NeverIgnored, f, true, cur, k, items)
             == WalkFrom(ins, NoOutput(), ToBeIgnored, NeverIgnored, f)
      decreases Remaining(ins, cur)
    {
      RemainingNonNegative(ins, cur);
      var error;
      var next: seq<Complex>;
      cur, k, next, error := WalkStep(ins, NoOutput(), ToBeIgnored, NeverIgnored, f, true, cur, k, items);
      if error.Some? {
        return Err(error.value);
      }
      TotalOfNext(items, next, kind);
      if |next| > |items| {
        // the step appended one value: fold it into the running total
        z := Accumulate(z, next[|items|], kind);
      }
      items := next;
    }
    WalkStops(ins, NoOutput(), ToBeIgnored, NeverIgnored, f, true, cur, k, items);
    r := Ok(z);
  }
}

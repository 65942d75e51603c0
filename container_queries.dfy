/**
 * What the acquisition container's permutation and query operations compute:
 * the time order of sort_by_time, the flagged acquisition numbers, the copies
 * made by get_subset and set_subset, and the k-space order.
 */
module AcquisitionQueries {
  import opened Errors
  import opened Ismrmrd
  import opened Stores
  import opened KSpace
  import opened KSpaceOrder
  import opened StableOrder

  // ---------------------------------------------------------------- sort_by_time

  /** index_.resize(n): the permutation cut to n entries, or padded with zeros up to n. */
  function Resized(index: seq<int>, n: nat): (r: seq<int>)
    ensures |r| == n
    ensures forall k :: 0 <= k < n ==> r[k] == (if k < |index| then index[k] else 0)
  {
    if n <= |index| then index[..n] else index + seq(n - |index|, k => 0)
  }

  /**
   * The time stamps sort_by_time sorts by: acquisition k read through the resized
   * permutation, so that a position the permutation did not cover reads storage item 0.
   */
  function TimeKeys(s: Store<Acquisition>): (keys: seq<int>)
    requires s.WellFormed()
    ensures |keys| == |s.items|
  {
    var n := |s.items|;
    var r := Resized(s.index, n);
    seq(n, k requires 0 <= k < n => s.items[r[k]].acquisitionTimeStamp)
  }

  /** Each key is the time stamp that get_acquisition(k) returns once `index_` is resized. */
  lemma TimeKeysRead(s: Store<Acquisition>, k: int)
    requires s.WellFormed() && 0 <= k < |s.items|
    ensures var r := Resized(s.index, |s.items|);
      && Store(s.items, r, s.sorted).Read(k).Ok?
      && Store(s.items, r, s.sorted).Read(k).value.acquisitionTimeStamp == TimeKeys(s)[k]
  {
  }

  /** The permutation sort_by_time stores: a stable sort of 0 .. N-1 by the keys read. */
  function TimeOrder(s: Store<Acquisition>): seq<int>
    requires s.WellFormed()
  {
    StableOrder.StableOrder(TimeKeys(s), |s.items|)
  }

  /**
   * sort_by_time leaves a permutation of 0 .. N-1 that covers the whole storage, listing
   * acquisition numbers by ascending key and, among equal keys, by ascending number.
   */
  lemma SortByTimePermutes(s: Store<Acquisition>)
    requires s.WellFormed()
    ensures IsPermutation(TimeOrder(s)) && |TimeOrder(s)| == |s.items|
    ensures Store(s.items, TimeOrder(s), true).WellFormed()
    ensures Store(s.items, TimeOrder(s), true).FullyIndexed()
    ensures OrderedBy(TimeOrder(s), TimeKeys(s))
  {
    StableOrderSpec(TimeKeys(s), |s.items|);
  }

  /**
   * A container without a permutation reads storage item 0 at every position once the
   * permutation is zero-filled, so all keys are equal and sort_by_time stores the identity,
   * whatever the time stamps.
   */
  lemma SortByTimeWithoutPermutation(s: Store<Acquisition>)
    requires s.WellFormed() && |s.index| == 0
    ensures TimeOrder(s) == Iota(|s.items|)
  {
    var keys := TimeKeys(s);
    if |s.items| > 0 {
      assert forall k :: 0 <= k < |s.items| ==> keys[k] == s.items[0].acquisitionTimeStamp;
    }
    StableOrderOfEqualKeys(keys, |s.items|);
  }

  /**
   * From the identity permutation, sort_by_time orders the container by time stamp:
   * reading positions k < l yields stamps in ascending order, and equal stamps keep
   * their storage order.
   */
  lemma SortByTimeFromIdentity(s: Store<Acquisition>)
    requires s.WellFormed() && s.index == Iota(|s.items|)
    ensures var r := TimeOrder(s);
      forall k, l :: 0 <= k < l < |r| ==>
        0 <= r[k] < |s.items| && 0 <= r[l] < |s.items| &&
        (s.items[r[k]].acquisitionTimeStamp < s.items[r[l]].acquisitionTimeStamp ||
         (s.items[r[k]].acquisitionTimeStamp == s.items[r[l]].acquisitionTimeStamp && r[k] < r[l]))
  {
    var keys := TimeKeys(s);
    assert forall j :: 0 <= j < |s.items| ==> keys[j] == s.items[j].acquisitionTimeStamp;
    StableOrderSpec(keys, |s.items|);
  }

  // ------------------------------------------------------ get_flagged_acquisitions_index

  /** One of the listed flags is set in the flag word. */
  predicate AnyFlagSet(word: U64, flags: seq<FlagNumber>) {
    exists f :: f in flags && IsFlagSet(word, f)
  }

  /**
   * get_flagged_acquisitions_index over acquisitions 0 .. n-1: no flags give the empty
   * list; otherwise the numbers whose acquisition has one of the flags set, and the first
   * failing read is passed on.
   */
  function Flagged(s: Store<Acquisition>, flags: seq<FlagNumber>, n: nat): Result<seq<int>>
    decreases n
  {
    if |flags| == 0 || n == 0 then Ok([])
    else
      var prev :- Flagged(s, flags, n - 1);
      var acq :- s.Read(n - 1);
      if AnyFlagSet(acq.flags, flags) then Ok(prev + [n - 1]) else Ok(prev)
  }

  /** A failed read ends the flagged list for good. */
  lemma {:induction false} FlaggedStopped(s: Store<Acquisition>, flags: seq<FlagNumber>, m: nat, n: nat)
    requires m <= n && Flagged(s, flags, m).Err?
    ensures Flagged(s, flags, n) == Flagged(s, flags, m)
    decreases n
  {
    if n > m {
      FlaggedStopped(s, flags, m, n - 1);
    }
  }

  /** The flagged list is defined exactly when there are no flags or every position reads. */
  lemma {:induction false} FlaggedDefinedIff(s: Store<Acquisition>, flags: seq<FlagNumber>, n: nat)
    ensures Flagged(s, flags, n).Ok? <==> |flags| == 0 || forall i :: 0 <= i < n ==> s.Read(i).Ok?
    decreases n
  {
    if |flags| > 0 && n > 0 {
      FlaggedDefinedIff(s, flags, n - 1);
    }
  }

  /**
   * The flagged list holds exactly the numbers below n whose acquisition has one of the
   * flags set, in ascending order.
   */
  lemma {:induction false} FlaggedMembers(s: Store<Acquisition>, flags: seq<FlagNumber>, n: nat)
    requires Flagged(s, flags, n).Ok?
    ensures forall x :: x in Flagged(s, flags, n).value <==>
      0 <= x < n && |flags| > 0 && s.Read(x).Ok? && AnyFlagSet(s.Read(x).value.flags, flags)
    ensures StrictlyIncreasing(Flagged(s, flags, n).value)
    ensures forall x :: x in Flagged(s, flags, n).value ==> x < n
    decreases n
  {
    if |flags| > 0 && n > 0 {
      FlaggedMembers(s, flags, n - 1);
      FlaggedDefinedIff(s, flags, n);
      var prev := Flagged(s, flags, n - 1).value;
      forall k | 0 <= k < |prev| ensures prev[k] < n - 1 {
        assert prev[k] in prev;
      }
    }
  }

  // ------------------------------------------------------------------ get_subset

  /** Items copied so far, and the exception that stopped the copy, if any. */
  datatype Copy<T> = Copy(items: seq<T>, error: Option<Error>)

  /** get_subset for idx[..n]: the items at the listed logical positions, in list order. */
  function Gather<T>(s: Store<T>, idx: seq<int>, n: nat): (r: Copy<T>)
    requires n <= |idx|
    ensures |r.items| <= n
    ensures forall k :: 0 <= k < |r.items| ==> s.Read(idx[k]) == Ok(r.items[k])
    ensures r.error.None? ==> |r.items| == n
    ensures r.error.Some? ==> |r.items| < n && s.Read(idx[|r.items|]) == Err(r.error.value)
    decreases n
  {
    if n == 0 then Copy([], None)
    else
      var prev := Gather(s, idx, n - 1);
      if prev.error.Some? then prev
      else match s.Read(idx[n - 1])
        case Ok(x) => Copy(prev.items + [x], None)
        case Err(e) => Copy(prev.items, Some(e))
  }

  /** A failed read ends the copy for good. */
  lemma {:induction false} GatherStopped<T>(s: Store<T>, idx: seq<int>, m: nat, n: nat)
    requires m <= n <= |idx| && Gather(s, idx, m).error.Some?
    ensures Gather(s, idx, n) == Gather(s, idx, m)
    decreases n
  {
    if n > m {
      GatherStopped(s, idx, m, n - 1);
    }
  }

  // ------------------------------------------------------------------ set_subset

  /**
   * set_subset for the first n entries: item k of the subset goes to logical position
   * idx[k] of the target, the first failure ending the copy. When the subset is the
   * target itself (`aliased`), item k is read from the target as already updated.
   */
  function Scatter<T>(target: Store<T>, sub: Store<T>, aliased: bool, idx: seq<int>, n: nat): (r: Copy<T>)
    requires n <= |idx|
    ensures |r.items| == |target.items|
    decreases n
  {
    if n == 0 then Copy(target.items, None)
    else
      var prev := Scatter(target, sub, aliased, idx, n - 1);
      if prev.error.Some? then prev
      else
        var live := Store(prev.items, target.index, target.sorted);
        var source := if aliased then live else sub;
        match source.Read(n - 1)
        case Err(e) => Copy(prev.items, Some(e))
        case Ok(x) =>
          match live.Write(idx[n - 1], x)
          case Err(e) => Copy(prev.items, Some(e))
          case Ok(items) => Copy(items, None)
  }

  /** A failed read or write ends the copy for good. */
  lemma {:induction false} ScatterStopped<T>(target: Store<T>, sub: Store<T>, aliased: bool, idx: seq<int>, m: nat, n: nat)
    requires m <= n <= |idx| && Scatter(target, sub, aliased, idx, m).error.Some?
    ensures Scatter(target, sub, aliased, idx, n) == Scatter(target, sub, aliased, idx, m)
    decreases n
  {
    if n > m {
      ScatterStopped(target, sub, aliased, idx, m, n - 1);
    }
  }

  /**
   * Copying from a separate subset succeeds exactly when every subset position reads
   * and every listed target position exists.
   */
  lemma {:induction false} ScatterDefinedIff<T>(target: Store<T>, sub: Store<T>, idx: seq<int>, n: nat)
    requires target.WellFormed() && n <= |idx|
    ensures Scatter(target, sub, false, idx, n).error.None? <==>
      forall k :: 0 <= k < n ==> sub.Read(k).Ok? && target.Index(idx[k]).Ok?
    decreases n
  {
    if n > 0 {
      ScatterDefinedIff(target, sub, idx, n - 1);
      var prev := Scatter(target, sub, false, idx, n - 1);
      if prev.error.None? && sub.Read(n - 1).Ok? {
        var live := Store(prev.items, target.index, target.sorted);
        assert forall i :: live.Index(i) == target.Index(i);
        WriteDefined(live, idx[n - 1], sub.Read(n - 1).value);
      }
    }
  }

  /** One successful step of the copy: position idx[n-1] receives subset item n-1, no other position changes. */
  lemma ScatterStep<T>(target: Store<T>, sub: Store<T>, idx: seq<int>, n: nat)
    requires target.WellFormed() && 0 < n <= |idx| && Scatter(target, sub, false, idx, n).error.None?
    ensures Scatter(target, sub, false, idx, n - 1).error.None? && sub.Read(n - 1).Ok?
    ensures var q := Store(Scatter(target, sub, false, idx, n).items, target.index, target.sorted);
      q.Read(idx[n - 1]) == sub.Read(n - 1)
    ensures var p := Store(Scatter(target, sub, false, idx, n - 1).items, target.index, target.sorted);
      var q := Store(Scatter(target, sub, false, idx, n).items, target.index, target.sorted);
      forall j :: target.Index(j).Ok? && j != idx[n - 1] ==> q.Read(j) == p.Read(j)
  {
    var prev := Scatter(target, sub, false, idx, n - 1);
    var live := Store(prev.items, target.index, target.sorted);
    assert live.WellFormed();
    var x := sub.Read(n - 1).value;
    var r := Scatter(target, sub, false, idx, n);
    assert r.items == live.Write(idx[n - 1], x).value;
    forall j | target.Index(j).Ok? && j != idx[n - 1]
      ensures Store(r.items, target.index, target.sorted).Read(j) == live.Read(j)
    {
      WriteThenRead(live, idx[n - 1], j, x);
    }
    WriteThenRead(live, idx[n - 1], idx[n - 1], x);
  }

  /** After a successful copy, a position listed for the last time at k holds subset item k. */
  lemma {:induction false} ScatterPlacesAt<T>(target: Store<T>, sub: Store<T>, idx: seq<int>, n: nat, k: int)
    requires target.WellFormed() && n <= |idx| && Scatter(target, sub, false, idx, n).error.None?
    requires 0 <= k < n && idx[k] !in idx[k + 1..n]
    ensures Store(Scatter(target, sub, false, idx, n).items, target.index, target.sorted).Read(idx[k]) == sub.Read(k)
    decreases n
  {
    ScatterStep(target, sub, idx, n);
    if k < n - 1 {
      assert idx[k + 1..n] == idx[k + 1..n - 1] + [idx[n - 1]];
      ScatterPlacesAt(target, sub, idx, n - 1, k);
      ScatterDefinedIff(target, sub, idx, n);
      assert target.Index(idx[k]).Ok?;
    }
  }

  /** After a successful copy, a position that is not listed reads as before. */
  lemma {:induction false} ScatterKeepsAt<T>(target: Store<T>, sub: Store<T>, idx: seq<int>, n: nat, j: int)
    requires target.WellFormed() && n <= |idx| && Scatter(target, sub, false, idx, n).error.None?
    requires target.Index(j).Ok? && j !in idx[..n]
    ensures Store(Scatter(target, sub, false, idx, n).items, target.index, target.sorted).Read(j) == target.Read(j)
    decreases n
  {
    if n > 0 {
      ScatterStep(target, sub, idx, n);
      assert idx[..n] == idx[..n - 1] + [idx[n - 1]];
      ScatterKeepsAt(target, sub, idx, n - 1, j);
    }
  }

  /**
   * After a successful copy from a separate subset each listed position holds its subset
   * item (the last one, for a position listed twice) and every other position is unchanged.
   */
  lemma ScatterPlaces<T>(target: Store<T>, sub: Store<T>, idx: seq<int>, n: nat)
    requires target.WellFormed() && n <= |idx| && Scatter(target, sub, false, idx, n).error.None?
    ensures var q := Store(Scatter(target, sub, false, idx, n).items, target.index, target.sorted);
      forall k :: 0 <= k < n && idx[k] !in idx[k + 1..n] ==> q.Read(idx[k]) == sub.Read(k)
    ensures var q := Store(Scatter(target, sub, false, idx, n).items, target.index, target.sorted);
      forall j :: target.Index(j).Ok? && j !in idx[..n] ==> q.Read(j) == target.Read(j)
  {
    forall k | 0 <= k < n && idx[k] !in idx[k + 1..n] {
      ScatterPlacesAt(target, sub, idx, n, k);
    }
    forall j | target.Index(j).Ok? && j !in idx[..n] {
      ScatterKeepsAt(target, sub, idx, n, j);
    }
  }

  /** A write through index(i) succeeds exactly when index(i) does, on a well-formed container. */
  lemma WriteDefined<T>(s: Store<T>, i: int, x: T)
    requires s.WellFormed()
    ensures s.Write(i, x).Ok? <==> s.Index(i).Ok?
  {
    if s.Index(i).Ok? {
      IndexInStorage(s, i);
    }
  }

  /**
   * Putting back a subset just taken from the same positions leaves the container as it
   * was, even when a position is listed twice.
   */
  lemma {:induction false} GatherThenScatter<T>(s: Store<T>, idx: seq<int>, n: nat, sorted: bool)
    requires s.WellFormed() && n <= |idx| && Gather(s, idx, |idx|).error.None?
    ensures Scatter(s, Store(Gather(s, idx, |idx|).items, [], sorted), false, idx, n) == Copy(s.items, None)
    decreases n
  {
    var g := Gather(s, idx, |idx|).items;
    var sub := Store(g, [], sorted);
    if n > 0 {
      GatherThenScatter(s, idx, n - 1, sorted);
      assert sub.Read(n - 1) == Ok(g[n - 1]);
      assert s.Read(idx[n - 1]) == Ok(g[n - 1]);
      IndexInStorage(s, idx[n - 1]);
      assert s.items[s.Index(idx[n - 1]).value := g[n - 1]] == s.items;
    }
  }

  // ------------------------------------------------------------ get_kspace_order

  /** The index lists of the non-empty subsets, in table order. */
  function NonEmptyLists(sorting: seq<KSpaceSubset>): (r: seq<seq<int>>)
    ensures forall k :: 0 <= k < |r| ==> r[k] != []
    decreases |sorting|
  {
    if |sorting| == 0 then []
    else
      var prev := NonEmptyLists(sorting[..|sorting| - 1]);
      var last := sorting[|sorting| - 1].idxSet;
      if last == [] then prev else prev + [last]
  }

  /** A table without empty subsets gives back its index lists unchanged. */
  lemma {:induction false} NonEmptyListsOfNonEmpty(sorting: seq<KSpaceSubset>)
    requires forall k :: 0 <= k < |sorting| ==> sorting[k].idxSet != []
    ensures |NonEmptyLists(sorting)| == |sorting|
    ensures forall k :: 0 <= k < |sorting| ==> NonEmptyLists(sorting)[k] == sorting[k].idxSet
    decreases |sorting|
  {
    if |sorting| > 0 {
      NonEmptyListsOfNonEmpty(sorting[..|sorting| - 1]);
    }
  }

  /**
   * get_kspace_order: an empty container and a container never organised are refused;
   * otherwise the index lists of the non-empty subsets.
   */
  function KSpaceOrderOf(number: nat, sorting: seq<KSpaceSubset>): Result<seq<seq<int>>>
  {
    if number == 0 then Err(EmptyContainer)
    else if |sorting| == 0 then Err(NoSorting)
    else Ok(NonEmptyLists(sorting))
  }

  // ------------------------------------------------------------------ clone

  /** clone's copy loop: the acquisitions at logical positions 0 .. N-1, in that order. */
  function Flattened<T>(s: Store<T>): Copy<T> {
    Gather(s, Iota(|s.items|), |s.items|)
  }

  /** A container that reads at every position flattens to the acquisitions it reads there. */
  lemma FlattenedReads<T>(s: Store<T>)
    requires s.Readable()
    ensures Flattened(s).error.None? && |Flattened(s).items| == |s.items|
    ensures forall i :: 0 <= i < |s.items| ==> s.Read(i) == Ok(Flattened(s).items[i])
  {
    var n := |s.items|;
    assert forall k :: 0 <= k < n ==> s.Read(Iota(n)[k]) == s.Read(k);
  }

  // ------------------------------------------------------------------ get_trajectory_dimensions

  /** The value get_trajectory_dimensions starts from, and keeps while no acquisition counts. */
  const NO_TRAJECTORY: U16 := 65535

  /**
   * The loop of get_trajectory_dimensions over positions 0 .. n-1, with `ignored` the
   * acquisition filter: ignored acquisitions are skipped; the first one kept, or any kept
   * while the value is still 65535, sets the value; a later one with other dimensions throws.
   */
  function TrajectoryDims(s: Store<Acquisition>, ignored: Acquisition -> bool, n: nat): Result<U16>
    decreases n
  {
    if n == 0 then Ok(NO_TRAJECTORY)
    else
      var d :- TrajectoryDims(s, ignored, n - 1);
      var acq :- s.Read(n - 1);
      if ignored(acq) then Ok(d)
      else if d == NO_TRAJECTORY then Ok(acq.trajectoryDimensions)
      else if acq.trajectoryDimensions != d then Err(SizeMismatch)
      else Ok(d)
  }

  /** A failure ends the loop for good. */
  lemma {:induction false} TrajectoryDimsStopped(s: Store<Acquisition>, ignored: Acquisition -> bool, m: nat, n: nat)
    requires m <= n && TrajectoryDims(s, ignored, m).Err?
    ensures TrajectoryDims(s, ignored, n) == TrajectoryDims(s, ignored, m)
    decreases n
  {
    if n > m {
      TrajectoryDimsStopped(s, ignored, m, n - 1);
    }
  }

  /** get_trajectory_dimensions: an empty container fails its ASSERT. */
  function TrajectoryDimensions(s: Store<Acquisition>): Result<U16> {
    if |s.items| == 0 then Err(Assertion) else TrajectoryDims(s, ToBeIgnored, |s.items|)
  }

  /** An acquisition that is read and kept. */
  predicate KeptAt(s: Store<Acquisition>, ignored: Acquisition -> bool, i: int) {
    s.Read(i).Ok? && !ignored(s.Read(i).value)
  }

  /**
   * When the loop succeeds every position reads, and every kept acquisition has the
   * dimensions returned or 65535; 65535 comes back only when every kept one has it.
   */
  lemma {:induction false} TrajectoryDimsAgree(s: Store<Acquisition>, ignored: Acquisition -> bool, n: nat, d: U16)
    requires TrajectoryDims(s, ignored, n) == Ok(d)
    ensures forall i :: 0 <= i < n ==> s.Read(i).Ok?
    ensures forall i :: 0 <= i < n && KeptAt(s, ignored, i) ==>
              (s.Read(i).value.trajectoryDimensions == d || s.Read(i).value.trajectoryDimensions == NO_TRAJECTORY)
    ensures d == NO_TRAJECTORY ==>
              forall i :: 0 <= i < n && KeptAt(s, ignored, i) ==> s.Read(i).value.trajectoryDimensions == NO_TRAJECTORY
    decreases n
  {
    if n > 0 {
      var prev := TrajectoryDims(s, ignored, n - 1).value;
      TrajectoryDimsAgree(s, ignored, n - 1, prev);
      assert s.Read(n - 1).Ok?;
      var last := s.Read(n - 1).value;
      if !KeptAt(s, ignored, n - 1) {
        assert d == prev;
      } else if prev == NO_TRAJECTORY {
        assert d == last.trajectoryDimensions;
      } else {
        assert d == prev && last.trajectoryDimensions == d;
      }
    }
  }

  /**
   * When every position reads and every kept acquisition has dimensions t, the loop
   * returns t, or 65535 when no acquisition is kept.
   */
  lemma {:induction false} TrajectoryDimsUniform(s: Store<Acquisition>, ignored: Acquisition -> bool, n: nat, t: U16)
    requires forall i :: 0 <= i < n ==> s.Read(i).Ok?
    requires forall i :: 0 <= i < n && KeptAt(s, ignored, i) ==> s.Read(i).value.trajectoryDimensions == t
    ensures TrajectoryDims(s, ignored, n) == Ok(if exists i :: 0 <= i < n && KeptAt(s, ignored, i) then t else NO_TRAJECTORY)
    decreases n
  {
    if n > 0 {
      TrajectoryDimsUniform(s, ignored, n - 1, t);
      if !KeptAt(s, ignored, n - 1) {
        assert (exists i :: 0 <= i < n && KeptAt(s, ignored, i)) == (exists i :: 0 <= i < n - 1 && KeptAt(s, ignored, i));
      }
    }
  }
}

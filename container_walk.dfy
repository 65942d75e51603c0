/**
 * The loop shared by the container-level algebra of MRAcquisitionData
 * (axpby, both xapyb forms, binary_op, semibinary_op and unary_op). One
 * cursor per input container walks its logical positions; a cursor that
 * meets an item the container reports as ignored steps past it alone. When
 * every input cursor rests on a kept item, the output cursor k is either the
 * end of an empty output (the result is appended) or a logical position of
 * the output, which is skipped while it holds an ignored item and otherwise
 * overwritten. The walk stops as soon as one input is exhausted.
 *
 * The inputs are given as values, listed in the order the loop tests them;
 * the per-item operation receives the current item of every input in that
 * order. The walk is stated for any item type and any ignore test; the
 * acquisition containers use acquisitions and TO_BE_IGNORED.
 */
module ContainerWalk {
  import opened Errors
  import opened Stores

  predicate CursorsInRange<T>(ins: seq<Store<T>>, cur: seq<int>) {
    |cur| == |ins| && forall i :: 0 <= i < |ins| ==> 0 <= cur[i] <= |ins[i].items|
  }

  /** The loop condition fails: some input cursor has reached number(). */
  predicate Exhausted<T>(ins: seq<Store<T>>, cur: seq<int>)
    requires |cur| == |ins|
  {
    exists i :: 0 <= i < |ins| && cur[i] >= |ins[i].items|
  }

  /** The positions not yet visited, summed over the inputs. */
  function Remaining<T>(ins: seq<Store<T>>, cur: seq<int>): int
    requires |cur| == |ins|
  {
    if |ins| == 0 then 0
    else Remaining(ins[..|ins| - 1], cur[..|ins| - 1]) + (|ins[|ins| - 1].items| - cur[|ins| - 1])
  }

  lemma {:induction false} RemainingNonNegative<T>(ins: seq<Store<T>>, cur: seq<int>)
    requires CursorsInRange(ins, cur)
    ensures Remaining(ins, cur) >= 0
  {
    if |ins| > 0 {
      RemainingNonNegative(ins[..|ins| - 1], cur[..|ins| - 1]);
    }
  }

  /** Moving cursors forward never raises the remaining count, and moving one lowers it. */
  lemma {:induction false} RemainingStep<T>(ins: seq<Store<T>>, cur: seq<int>, next: seq<int>)
    requires |cur| == |ins| == |next|
    requires forall i :: 0 <= i < |ins| ==> cur[i] <= next[i]
    ensures Remaining(ins, next) <= Remaining(ins, cur)
    ensures (exists i :: 0 <= i < |ins| && cur[i] < next[i]) ==> Remaining(ins, next) < Remaining(ins, cur)
  {
    if |ins| > 0 {
      var n := |ins| - 1;
      RemainingStep(ins[..n], cur[..n], next[..n]);
      if exists i :: 0 <= i < |ins| && cur[i] < next[i] {
        var i :| 0 <= i < |ins| && cur[i] < next[i];
        if i < n {
          assert cur[..n][i] < next[..n][i];
        }
      }
    }
  }

  /** Every cursor one step on. */
  function Advance(cur: seq<int>): (r: seq<int>)
    ensures |r| == |cur| && forall i :: 0 <= i < |cur| ==> r[i] == cur[i] + 1
  {
    seq(|cur|, i requires 0 <= i < |cur| => cur[i] + 1)
  }

  /** The outcome of testing the inputs in order at their cursors. */
  datatype Probe<T> = Ready(got: seq<T>) | Skip(input: nat) | ReadFailed(error: Error)

  /** Tests the first n inputs: the first failing read, or the first ignored item, or all of them. */
  function ScanInputs<T>(ins: seq<Store<T>>, ignored: T -> bool, cur: seq<int>, n: nat): (p: Probe<T>)
    requires n <= |ins| == |cur|
    ensures p.Skip? ==> p.input < n
    ensures p.Ready? ==> |p.got| == n
  {
    if n == 0 then Ready([])
    else
      match ScanInputs(ins, ignored, cur, n - 1)
      case Ready(got) =>
        (match ins[n - 1].Read(cur[n - 1])
         case Err(e) => ReadFailed(e)
         case Ok(x) => if ignored(x) then Skip(n - 1) else Ready(got + [x]))
      case other => other
  }

  /** Once an input has failed to read or been skipped, testing further inputs changes nothing. */
  lemma {:induction false} ScanInputsStopped<T>(ins: seq<Store<T>>, ignored: T -> bool, cur: seq<int>, m: nat, n: nat)
    requires m <= n <= |ins| == |cur| && !ScanInputs(ins, ignored, cur, m).Ready?
    ensures ScanInputs(ins, ignored, cur, n) == ScanInputs(ins, ignored, cur, m)
    decreases n
  {
    if n > m {
      ScanInputsStopped(ins, ignored, cur, m, n - 1);
    }
  }

  /** Where the walk ends: the output's items, and the exception that stopped it, if any. */
  datatype WalkEnd<T> = WalkEnd(items: seq<T>, error: Option<Error>)

  /**
   * The loop from cursors cur and output cursor k, with the output's items so
   * far. In overwrite mode (append is false) the output keeps its permutation
   * out.index.
   */
  function Walk<T, U>(ins: seq<Store<T>>, out: Store<U>, ignored: T -> bool, outIgnored: U -> bool, f: seq<T> -> Result<U>,
                   append: bool, cur: seq<int>, k: int, items: seq<U>): WalkEnd<U>
    requires |ins| >= 1 && CursorsInRange(ins, cur)
    requires !append ==> |items| == |out.items|
    decreases Remaining(ins, cur), |items| - k
  {
    RemainingNonNegative(ins, cur);
    if Exhausted(ins, cur) then WalkEnd(items, None)
    else
      match ScanInputs(ins, ignored, cur, |ins|)
      case ReadFailed(e) => WalkEnd(items, Some(e))
      case Skip(i) =>
        RemainingStep(ins, cur, cur[i := cur[i] + 1]);
        Walk(ins, out, ignored, outIgnored, f, append, cur[i := cur[i] + 1], k, items)
      case Ready(got) =>
        var target := Store(items, out.index, out.sorted);
        if !append && target.Read(k).Err? then WalkEnd(items, Some(target.Read(k).error))
        else if !append && outIgnored(target.Read(k).value) then
          Walk(ins, out, ignored, outIgnored, f, append, cur, k + 1, items)
        else
          match f(got)
          case Err(e) => WalkEnd(items, Some(e))
          case Ok(v) =>
            RemainingStep(ins, cur, Advance(cur));
            if append then Walk(ins, out, ignored, outIgnored, f, append, Advance(cur), k + 1, items + [v])
            else
              match target.Write(k, v)
              case Err(e) => WalkEnd(items, Some(e))
              case Ok(written) => Walk(ins, out, ignored, outIgnored, f, append, Advance(cur), k + 1, written)
  }

  function Zeros(n: nat): (r: seq<int>)
    ensures |r| == n && forall i :: 0 <= i < n ==> r[i] == 0
  {
    seq(n, _ => 0)
  }

  /** The whole loop on an output container out: append when it is empty, overwrite otherwise. */
  function WalkFrom<T, U>(ins: seq<Store<T>>, out: Store<U>, ignored: T -> bool, outIgnored: U -> bool, f: seq<T> -> Result<U>): WalkEnd<U>
    requires |ins| >= 1
  {
    Walk(ins, out, ignored, outIgnored, f, |out.items| == 0, Zeros(|ins|), 0, out.items)
  }

  // One step of the loop each.

  lemma WalkStops<T, U>(ins: seq<Store<T>>, out: Store<U>, ignored: T -> bool, outIgnored: U -> bool, f: seq<T> -> Result<U>,
                     append: bool, cur: seq<int>, k: int, items: seq<U>)
    requires |ins| >= 1 && CursorsInRange(ins, cur) && (!append ==> |items| == |out.items|)
    requires Exhausted(ins, cur)
    ensures Walk(ins, out, ignored, outIgnored, f, append, cur, k, items) == WalkEnd(items, None)
  {
  }

  lemma WalkSkipsInput<T, U>(ins: seq<Store<T>>, out: Store<U>, ignored: T -> bool, outIgnored: U -> bool, f: seq<T> -> Result<U>,
                          append: bool, cur: seq<int>, k: int, items: seq<U>)
    requires |ins| >= 1 && CursorsInRange(ins, cur) && (!append ==> |items| == |out.items|)
    requires !Exhausted(ins, cur) && ScanInputs(ins, ignored, cur, |ins|).Skip?
    ensures var i := ScanInputs(ins, ignored, cur, |ins|).input;
      && CursorsInRange(ins, cur[i := cur[i] + 1])
      && Walk(ins, out, ignored, outIgnored, f, append, cur, k, items)
         == Walk(ins, out, ignored, outIgnored, f, append, cur[i := cur[i] + 1], k, items)
  {
  }

  lemma WalkReadFails<T, U>(ins: seq<Store<T>>, out: Store<U>, ignored: T -> bool, outIgnored: U -> bool, f: seq<T> -> Result<U>,
                         append: bool, cur: seq<int>, k: int, items: seq<U>)
    requires |ins| >= 1 && CursorsInRange(ins, cur) && (!append ==> |items| == |out.items|)
    requires !Exhausted(ins, cur) && ScanInputs(ins, ignored, cur, |ins|).ReadFailed?
    ensures Walk(ins, out, ignored, outIgnored, f, append, cur, k, items)
         == WalkEnd(items, Some(ScanInputs(ins, ignored, cur, |ins|).error))
  {
  }

  /** The per-item operation fails on an item that is to be written. */
  lemma WalkStepFails<T, U>(ins: seq<Store<T>>, out: Store<U>, ignored: T -> bool, outIgnored: U -> bool, f: seq<T> -> Result<U>,
                         append: bool, cur: seq<int>, k: int, items: seq<U>)
    requires |ins| >= 1 && CursorsInRange(ins, cur) && (!append ==> |items| == |out.items|)
    requires !Exhausted(ins, cur) && ScanInputs(ins, ignored, cur, |ins|).Ready?
    requires !append ==> Store(items, out.index, out.sorted).Read(k).Ok?
    requires !append ==> !outIgnored(Store(items, out.index, out.sorted).Read(k).value)
    requires f(ScanInputs(ins, ignored, cur, |ins|).got).Err?
    ensures Walk(ins, out, ignored, outIgnored, f, append, cur, k, items)
         == WalkEnd(items, Some(f(ScanInputs(ins, ignored, cur, |ins|).got).error))
  {
  }

  lemma WalkAppendsOne<T, U>(ins: seq<Store<T>>, out: Store<U>, ignored: T -> bool, outIgnored: U -> bool, f: seq<T> -> Result<U>,
                          cur: seq<int>, k: int, items: seq<U>)
    requires |ins| >= 1 && CursorsInRange(ins, cur)
    requires !Exhausted(ins, cur) && ScanInputs(ins, ignored, cur, |ins|).Ready?
    requires f(ScanInputs(ins, ignored, cur, |ins|).got).Ok?
    ensures CursorsInRange(ins, Advance(cur))
    ensures Walk(ins, out, ignored, outIgnored, f, true, cur, k, items)
         == Walk(ins, out, ignored, outIgnored, f, true, Advance(cur), k + 1, items + [f(ScanInputs(ins, ignored, cur, |ins|).got).value])
  {
  }

  lemma WalkOutputFails<T, U>(ins: seq<Store<T>>, out: Store<U>, ignored: T -> bool, outIgnored: U -> bool, f: seq<T> -> Result<U>,
                           cur: seq<int>, k: int, items: seq<U>)
    requires |ins| >= 1 && CursorsInRange(ins, cur) && |items| == |out.items|
    requires !Exhausted(ins, cur) && ScanInputs(ins, ignored, cur, |ins|).Ready?
    requires Store(items, out.index, out.sorted).Read(k).Err?
    ensures Walk(ins, out, ignored, outIgnored, f, false, cur, k, items)
         == WalkEnd(items, Some(Store(items, out.index, out.sorted).Read(k).error))
  {
  }

  lemma WalkSkipsOutput<T, U>(ins: seq<Store<T>>, out: Store<U>, ignored: T -> bool, outIgnored: U -> bool, f: seq<T> -> Result<U>,
                           cur: seq<int>, k: int, items: seq<U>)
    requires |ins| >= 1 && CursorsInRange(ins, cur) && |items| == |out.items|
    requires !Exhausted(ins, cur) && ScanInputs(ins, ignored, cur, |ins|).Ready?
    requires Store(items, out.index, out.sorted).Read(k).Ok?
    requires outIgnored(Store(items, out.index, out.sorted).Read(k).value)
    ensures Walk(ins, out, ignored, outIgnored, f, false, cur, k, items)
         == Walk(ins, out, ignored, outIgnored, f, false, cur, k + 1, items)
  {
  }

  lemma WalkOverwritesOne<T, U>(ins: seq<Store<T>>, out: Store<U>, ignored: T -> bool, outIgnored: U -> bool, f: seq<T> -> Result<U>,
                             cur: seq<int>, k: int, items: seq<U>)
    requires |ins| >= 1 && CursorsInRange(ins, cur) && |items| == |out.items|
    requires !Exhausted(ins, cur) && ScanInputs(ins, ignored, cur, |ins|).Ready?
    requires Store(items, out.index, out.sorted).Read(k).Ok?
    requires !outIgnored(Store(items, out.index, out.sorted).Read(k).value)
    requires f(ScanInputs(ins, ignored, cur, |ins|).got).Ok?
    ensures CursorsInRange(ins, Advance(cur))
    ensures Store(items, out.index, out.sorted).Write(k, f(ScanInputs(ins, ignored, cur, |ins|).got).value).Ok?
    ensures Walk(ins, out, ignored, outIgnored, f, false, cur, k, items)
         == Walk(ins, out, ignored, outIgnored, f, false, Advance(cur), k + 1,
                 Store(items, out.index, out.sorted).Write(k, f(ScanInputs(ins, ignored, cur, |ins|).got).value).value)
  {
  }

  // The walk, stated without cursors.

  /** The logical positions below n whose item is kept, in ascending order. */
  function KeptUpTo<T>(s: Store<T>, ignored: T -> bool, n: nat): (r: seq<int>)
    requires n <= |s.items| && s.Readable()
    ensures forall j :: 0 <= j < |r| ==> 0 <= r[j] < n
  {
    if n == 0 then []
    else if ignored(s.Read(n - 1).value) then KeptUpTo(s, ignored, n - 1)
    else KeptUpTo(s, ignored, n - 1) + [n - 1]
  }

  function Kept<T>(s: Store<T>, ignored: T -> bool): seq<int>
    requires s.Readable()
  {
    KeptUpTo(s, ignored, |s.items|)
  }

  lemma {:induction false} KeptUpToPrefix<T>(s: Store<T>, ignored: T -> bool, a: nat, b: nat)
    requires a <= b <= |s.items| && s.Readable()
    ensures KeptUpTo(s, ignored, a) <= KeptUpTo(s, ignored, b)
    decreases b
  {
    if a < b {
      KeptUpToPrefix(s, ignored, a, b - 1);
    }
  }

  /** A cursor that has counted the kept items below c has counted at most all of them. */
  lemma CountBound<T>(s: Store<T>, ignored: T -> bool, c: nat)
    requires c <= |s.items| && s.Readable()
    ensures |KeptUpTo(s, ignored, c)| <= |Kept(s, ignored)|
  {
    KeptUpToPrefix(s, ignored, c, |s.items|);
  }

  /** A cursor on a kept item after j kept ones is the j-th kept position. */
  lemma KeptAt<T>(s: Store<T>, ignored: T -> bool, c: nat)
    requires c < |s.items| && s.Readable() && !ignored(s.Read(c).value)
    ensures |KeptUpTo(s, ignored, c)| < |Kept(s, ignored)|
    ensures Kept(s, ignored)[|KeptUpTo(s, ignored, c)|] == c
    ensures |KeptUpTo(s, ignored, c + 1)| == |KeptUpTo(s, ignored, c)| + 1
  {
    var r := KeptUpTo(s, ignored, c);
    assert KeptUpTo(s, ignored, c + 1) == r + [c];
    KeptUpToPrefix(s, ignored, c + 1, |s.items|);
    assert (r + [c])[|r|] == c;
  }

  predicate AllReadable<T>(ins: seq<Store<T>>) {
    forall i :: 0 <= i < |ins| ==> ins[i].Readable()
  }

  /** The number of steps the walk takes: the fewest kept items of any input. */
  function MinKept<T>(ins: seq<Store<T>>, ignored: T -> bool): (m: nat)
    requires AllReadable(ins)
    ensures forall i :: 0 <= i < |ins| ==> m <= |Kept(ins[i], ignored)|
    ensures |ins| > 0 ==> exists i :: 0 <= i < |ins| && m == |Kept(ins[i], ignored)|
  {
    if |ins| == 0 then 0
    else if |ins| == 1 then |Kept(ins[0], ignored)|
    else
      var m := MinKept(ins[1..], ignored);
      assert forall i :: 1 <= i < |ins| ==> ins[1..][i - 1] == ins[i];
      if |Kept(ins[0], ignored)| < m then |Kept(ins[0], ignored)| else m
  }

  /** What the j-th step reads: the j-th kept item of every input. */
  function Row<T>(ins: seq<Store<T>>, ignored: T -> bool, j: nat): (r: seq<T>)
    requires AllReadable(ins) && j < MinKept(ins, ignored)
    ensures |r| == |ins|
  {
    seq(|ins|, i requires 0 <= i < |ins| => ins[i].Read(Kept(ins[i], ignored)[j]).value)
  }

  predicate RowsDefined<T, U>(ins: seq<Store<T>>, ignored: T -> bool, f: seq<T> -> Result<U>)
    requires AllReadable(ins)
  {
    forall j :: 0 <= j < MinKept(ins, ignored) ==> f(Row(ins, ignored, j)).Ok?
  }

  /** The results of the first m steps. */
  function Results<T, U>(ins: seq<Store<T>>, ignored: T -> bool, f: seq<T> -> Result<U>, m: nat): (r: seq<U>)
    requires AllReadable(ins) && m <= MinKept(ins, ignored) && RowsDefined(ins, ignored, f)
    ensures |r| == m
  {
    seq(m, j requires 0 <= j < m => f(Row(ins, ignored, j)).value)
  }

  lemma ResultsStep<T, U>(ins: seq<Store<T>>, ignored: T -> bool, f: seq<T> -> Result<U>, j: nat)
    requires AllReadable(ins) && j < MinKept(ins, ignored) && RowsDefined(ins, ignored, f)
    ensures Results(ins, ignored, f, j) + [f(Row(ins, ignored, j)).value] == Results(ins, ignored, f, j + 1)
    ensures Results(ins, ignored, f, j + 1)[..j] == Results(ins, ignored, f, j)
  {
  }

  /** With every cursor on a position below number(), no read fails, and the scan reports what it read. */
  lemma {:induction false} ScanFacts<T>(ins: seq<Store<T>>, ignored: T -> bool, cur: seq<int>, n: nat)
    requires n <= |ins| && AllReadable(ins) && CursorsInRange(ins, cur)
    requires forall i :: 0 <= i < |ins| ==> cur[i] < |ins[i].items|
    ensures !ScanInputs(ins, ignored, cur, n).ReadFailed?
    ensures ScanInputs(ins, ignored, cur, n).Skip? ==>
      ignored(ins[ScanInputs(ins, ignored, cur, n).input].Read(cur[ScanInputs(ins, ignored, cur, n).input]).value)
    ensures ScanInputs(ins, ignored, cur, n).Ready? ==> forall i :: 0 <= i < n ==>
      ScanInputs(ins, ignored, cur, n).got[i] == ins[i].Read(cur[i]).value && !ignored(ins[i].Read(cur[i]).value)
  {
    if n > 0 {
      ScanFacts(ins, ignored, cur, n - 1);
      assert ins[n - 1].Read(cur[n - 1]).Ok?;
    }
  }

  /** Cursors that have each passed j kept items: j is at most the number of steps. */
  lemma {:induction false} StepsBounded<T>(ins: seq<Store<T>>, ignored: T -> bool, cur: seq<int>, j: nat)
    requires |ins| >= 1 && AllReadable(ins) && CursorsInRange(ins, cur)
    requires forall i :: 0 <= i < |ins| ==> |KeptUpTo(ins[i], ignored, cur[i])| == j
    ensures j <= MinKept(ins, ignored)
    ensures Exhausted(ins, cur) ==> j == MinKept(ins, ignored)
  {
    var i0 :| 0 <= i0 < |ins| && MinKept(ins, ignored) == |Kept(ins[i0], ignored)|;
    CountBound(ins[i0], ignored, cur[i0]);
    if Exhausted(ins, cur) {
      var i :| 0 <= i < |ins| && cur[i] >= |ins[i].items|;
      assert KeptUpTo(ins[i], ignored, cur[i]) == Kept(ins[i], ignored);
    }
  }

  /** A skipped input keeps its count of kept items passed. */
  lemma SkipKeepsCounts<T>(ins: seq<Store<T>>, ignored: T -> bool, cur: seq<int>, j: nat)
    requires |ins| >= 1 && AllReadable(ins) && CursorsInRange(ins, cur) && !Exhausted(ins, cur)
    requires forall i :: 0 <= i < |ins| ==> |KeptUpTo(ins[i], ignored, cur[i])| == j
    requires ScanInputs(ins, ignored, cur, |ins|).Skip?
    ensures var i := ScanInputs(ins, ignored, cur, |ins|).input;
      forall i' :: 0 <= i' < |ins| ==> |KeptUpTo(ins[i'], ignored, cur[i := cur[i] + 1][i'])| == j
  {
    ScanFacts(ins, ignored, cur, |ins|);
  }

  /** Cursors resting on kept items, each after j kept ones, rest on the j-th kept positions. */
  lemma OnKeptItems<T>(ins: seq<Store<T>>, ignored: T -> bool, cur: seq<int>, j: nat)
    requires AllReadable(ins) && CursorsInRange(ins, cur)
    requires forall i :: 0 <= i < |ins| ==> |KeptUpTo(ins[i], ignored, cur[i])| == j
    requires forall i :: 0 <= i < |ins| ==> cur[i] < |ins[i].items| && !ignored(ins[i].Read(cur[i]).value)
    ensures forall i :: 0 <= i < |ins| ==> j < |Kept(ins[i], ignored)| && Kept(ins[i], ignored)[j] == cur[i]
    ensures forall i :: 0 <= i < |ins| ==> |KeptUpTo(ins[i], ignored, Advance(cur)[i])| == j + 1
  {
    forall i | 0 <= i < |ins|
      ensures j < |Kept(ins[i], ignored)| && Kept(ins[i], ignored)[j] == cur[i]
      ensures |KeptUpTo(ins[i], ignored, Advance(cur)[i])| == j + 1
    {
      KeptAt(ins[i], ignored, cur[i]);
    }
  }

  /** When every input cursor rests on its j-th kept item, the scan reads row j. */
  lemma ReadyReadsRow<T>(ins: seq<Store<T>>, ignored: T -> bool, cur: seq<int>, j: nat)
    requires |ins| >= 1 && AllReadable(ins) && CursorsInRange(ins, cur)
    requires forall i :: 0 <= i < |ins| ==> |KeptUpTo(ins[i], ignored, cur[i])| == j
    requires !Exhausted(ins, cur) && ScanInputs(ins, ignored, cur, |ins|).Ready?
    ensures j < MinKept(ins, ignored)
    ensures ScanInputs(ins, ignored, cur, |ins|).got == Row(ins, ignored, j)
    ensures forall i :: 0 <= i < |ins| ==> |KeptUpTo(ins[i], ignored, Advance(cur)[i])| == j + 1
  {
    ScanFacts(ins, ignored, cur, |ins|);
    OnKeptItems(ins, ignored, cur, j);
    var i0 :| 0 <= i0 < |ins| && MinKept(ins, ignored) == |Kept(ins[i0], ignored)|;
    var got := ScanInputs(ins, ignored, cur, |ins|).got;
    var row := Row(ins, ignored, j);
    assert forall i :: 0 <= i < |ins| ==> got[i] == row[i];
  }

  /** Every input cursor has passed exactly j kept items. */
  predicate Passed<T>(ins: seq<Store<T>>, ignored: T -> bool, cur: seq<int>, j: nat) {
    && |ins| >= 1 && AllReadable(ins) && CursorsInRange(ins, cur)
    && forall i :: 0 <= i < |ins| ==> |KeptUpTo(ins[i], ignored, cur[i])| == j
  }

  /** An input cursor on an ignored item steps past it; the counts passed stay the same. */
  lemma SkipStep<T, U>(ins: seq<Store<T>>, out: Store<U>, ignored: T -> bool, outIgnored: U -> bool, f: seq<T> -> Result<U>,
                    append: bool, cur: seq<int>, k: int, items: seq<U>, j: nat)
      returns (cur': seq<int>)
    requires Passed(ins, ignored, cur, j) && !Exhausted(ins, cur) && ScanInputs(ins, ignored, cur, |ins|).Skip?
    requires !append ==> |items| == |out.items|
    ensures Passed(ins, ignored, cur', j)
    ensures Remaining(ins, cur') < Remaining(ins, cur)
    ensures Walk(ins, out, ignored, outIgnored, f, append, cur, k, items) == Walk(ins, out, ignored, outIgnored, f, append, cur', k, items)
  {
    var i := ScanInputs(ins, ignored, cur, |ins|).input;
    cur' := cur[i := cur[i] + 1];
    WalkSkipsInput(ins, out, ignored, outIgnored, f, append, cur, k, items);
    RemainingStep(ins, cur, cur');
    SkipKeepsCounts(ins, ignored, cur, j);
  }

  /** One iteration of the append loop that appends the j-th result. */
  lemma AppendReady<T, U>(ins: seq<Store<T>>, out: Store<U>, ignored: T -> bool, outIgnored: U -> bool,
                       f: seq<T> -> Result<U>, cur: seq<int>, k: int, j: nat)
    requires Passed(ins, ignored, cur, j) && RowsDefined(ins, ignored, f) && !Exhausted(ins, cur)
    requires j <= MinKept(ins, ignored) && !ScanInputs(ins, ignored, cur, |ins|).Skip?
    ensures Passed(ins, ignored, Advance(cur), j + 1) && j + 1 <= MinKept(ins, ignored)
    ensures Remaining(ins, Advance(cur)) < Remaining(ins, cur)
    ensures Walk(ins, out, ignored, outIgnored, f, true, cur, k, Results(ins, ignored, f, j))
         == Walk(ins, out, ignored, outIgnored, f, true, Advance(cur), k + 1, Results(ins, ignored, f, j + 1))
  {
    ScanFacts(ins, ignored, cur, |ins|);
    ReadyReadsRow(ins, ignored, cur, j);
    WalkAppendsOne(ins, out, ignored, outIgnored, f, cur, k, Results(ins, ignored, f, j));
    ResultsStep(ins, ignored, f, j);
    RemainingStep(ins, cur, Advance(cur));
  }

  /** The append loop from any point where every cursor has passed j kept items. */
  lemma {:induction false} WalkAppendsFrom<T, U>(ins: seq<Store<T>>, out: Store<U>, ignored: T -> bool, outIgnored: U -> bool,
                                              f: seq<T> -> Result<U>, cur: seq<int>, k: int, j: nat)
    requires Passed(ins, ignored, cur, j) && RowsDefined(ins, ignored, f)
    ensures j <= MinKept(ins, ignored)
    ensures Walk(ins, out, ignored, outIgnored, f, true, cur, k, Results(ins, ignored, f, j))
         == WalkEnd(Results(ins, ignored, f, MinKept(ins, ignored)), None)
    decreases Remaining(ins, cur)
  {
    StepsBounded(ins, ignored, cur, j);
    if Exhausted(ins, cur) {
      WalkStops(ins, out, ignored, outIgnored, f, true, cur, k, Results(ins, ignored, f, j));
    } else {
      if ScanInputs(ins, ignored, cur, |ins|).Skip? {
        var cur' := SkipStep(ins, out, ignored, outIgnored, f, true, cur, k, Results(ins, ignored, f, j), j);
        RemainingNonNegative(ins, cur');
        WalkAppendsFrom(ins, out, ignored, outIgnored, f, cur', k, j);
      } else {
        AppendReady(ins, out, ignored, outIgnored, f, cur, k, j);
        RemainingNonNegative(ins, Advance(cur));
        WalkAppendsFrom(ins, out, ignored, outIgnored, f, Advance(cur), k + 1, j + 1);
      }
    }
  }

  /**
   * Appending to an empty output: when every input can be read at every
   * position below its number(), the output receives one result per step,
   * the j-th computed from the j-th kept item of every input, for as many
   * steps as the input with the fewest kept items allows.
   */
  lemma WalkAppends<T, U>(ins: seq<Store<T>>, out: Store<U>, ignored: T -> bool, outIgnored: U -> bool, f: seq<T> -> Result<U>)
    requires |ins| >= 1 && AllReadable(ins) && |out.items| == 0 && RowsDefined(ins, ignored, f)
    ensures WalkFrom(ins, out, ignored, outIgnored, f) == WalkEnd(Results(ins, ignored, f, MinKept(ins, ignored)), None)
  {
    assert out.items == Results(ins, ignored, f, 0);
    WalkAppendsFrom(ins, out, ignored, outIgnored, f, Zeros(|ins|), 0, 0);
  }

  // Overwriting a non-empty output.

  /** The output after its first j kept positions have received the first j results. */
  function Overwritten<T>(out: Store<T>, ignored: T -> bool, rs: seq<T>, j: nat): (r: seq<T>)
    requires out.WellFormed() && out.Readable() && j <= |rs| && j <= |Kept(out, ignored)|
    ensures |r| == |out.items|
  {
    if j == 0 then out.items
    else
      var p := Kept(out, ignored)[j - 1];
      IndexInStorage(out, p);
      Overwritten(out, ignored, rs, j - 1)[out.Index(p).value := rs[j - 1]]
  }

  lemma {:induction false} KeptStrictlyIncreasing<T>(s: Store<T>, ignored: T -> bool, n: nat, a: int, b: int)
    requires n <= |s.items| && s.Readable() && 0 <= a < b < |KeptUpTo(s, ignored, n)|
    ensures KeptUpTo(s, ignored, n)[a] < KeptUpTo(s, ignored, n)[b]
    decreases n
  {
    var r := KeptUpTo(s, ignored, n - 1);
    if b < |r| {
      KeptStrictlyIncreasing(s, ignored, n - 1, a, b);
    }
  }

  /**
   * Overwritten, position by position: a storage position holds the j'-th
   * result when it backs the j'-th kept logical position, and its old item
   * otherwise.
   */
  lemma {:induction false} OverwrittenAt<T>(out: Store<T>, ignored: T -> bool, rs: seq<T>, j: nat, q: int)
    requires out.WellFormed() && out.Readable() && j <= |rs| && j <= |Kept(out, ignored)|
    requires 0 <= q < |out.items|
    ensures forall j' :: 0 <= j' < j && out.Index(Kept(out, ignored)[j']) == Ok(q) ==>
      Overwritten(out, ignored, rs, j)[q] == rs[j']
    ensures (forall j' :: 0 <= j' < j ==> out.Index(Kept(out, ignored)[j']) != Ok(q)) ==>
      Overwritten(out, ignored, rs, j)[q] == out.items[q]
  {
    if j > 0 {
      OverwrittenAt(out, ignored, rs, j - 1, q);
      var ks := Kept(out, ignored);
      forall j' | 0 <= j' < j - 1 && out.Index(ks[j']) == Ok(q)
        ensures out.Index(ks[j - 1]) != Ok(q)
      {
        KeptStrictlyIncreasing(out, ignored, |out.items|, j', j - 1);
        IndexInjective(out, ks[j'], ks[j - 1]);
      }
    }
  }

  /** Reading the output at a position the output cursor has not yet passed still sees the old item. */
  lemma UnreachedUnchanged<T>(out: Store<T>, ignored: T -> bool, rs: seq<T>, j: nat, k: nat)
    requires out.WellFormed() && out.Readable() && j <= |rs| && j <= |Kept(out, ignored)|
    requires k < |out.items| && |KeptUpTo(out, ignored, k)| == j
    ensures Store(Overwritten(out, ignored, rs, j), out.index, out.sorted).Read(k) == out.Read(k)
  {
    IndexInStorage(out, k);
    var q := out.Index(k).value;
    var ks := Kept(out, ignored);
    KeptUpToPrefix(out, ignored, k, |out.items|);
    forall j' | 0 <= j' < j ensures out.Index(ks[j']) != Ok(q) {
      assert ks[j'] == KeptUpTo(out, ignored, k)[j'];
      IndexInjective(out, ks[j'], k);
    }
    OverwrittenAt(out, ignored, rs, j, q);
  }

  /** Overwritten reads only the first j results. */
  lemma {:induction false} OverwrittenPrefix<T>(out: Store<T>, ignored: T -> bool, rs: seq<T>, j: nat)
    requires out.WellFormed() && out.Readable() && j <= |rs| && j <= |Kept(out, ignored)|
    ensures Overwritten(out, ignored, rs[..j], j) == Overwritten(out, ignored, rs, j)
    decreases j
  {
    if j > 0 {
      OverwrittenPrefix(out, ignored, rs[..j], j - 1);
      OverwrittenPrefix(out, ignored, rs, j - 1);
      assert rs[..j][..j - 1] == rs[..j - 1];
    }
  }

  /** Writing the next result at the next kept position extends Overwritten by one. */
  lemma OverwriteStep<T>(out: Store<T>, ignored: T -> bool, rs: seq<T>, j: nat, k: nat)
    requires out.WellFormed() && out.Readable() && j < |rs| && j < |Kept(out, ignored)|
    requires k < |out.items| && Kept(out, ignored)[j] == k
    ensures Store(Overwritten(out, ignored, rs[..j], j), out.index, out.sorted).Write(k, rs[j])
         == Ok(Overwritten(out, ignored, rs, j + 1))
  {
    IndexInStorage(out, k);
    OverwrittenPrefix(out, ignored, rs, j);
  }

  /** The output cursor k has passed exactly j kept positions of the output. */
  predicate OutputPassed<T>(out: Store<T>, ignored: T -> bool, k: int, j: nat) {
    out.WellFormed() && out.Readable() && 0 <= k <= |out.items| && |KeptUpTo(out, ignored, k)| == j
  }

  /** Every input is ready but the output cursor is past the output's end: index(k) throws. */
  lemma OverwriteOffEnd<T, U>(ins: seq<Store<T>>, out: Store<U>, ignored: T -> bool, outIgnored: U -> bool,
                           f: seq<T> -> Result<U>, cur: seq<int>, k: int, j: nat)
    requires Passed(ins, ignored, cur, j) && RowsDefined(ins, ignored, f) && !Exhausted(ins, cur)
    requires OutputPassed(out, outIgnored, k, j) && k == |out.items| && j <= MinKept(ins, ignored)
    requires !ScanInputs(ins, ignored, cur, |ins|).Skip?
    ensures j == |Kept(out, outIgnored)| < MinKept(ins, ignored)
    ensures Walk(ins, out, ignored, outIgnored, f, false, cur, k, Overwritten(out, outIgnored, Results(ins, ignored, f, j), j))
         == OverwriteEnd(ins, out, ignored, outIgnored, f)
  {
    ScanFacts(ins, ignored, cur, |ins|);
    ReadyReadsRow(ins, ignored, cur, j);
    assert KeptUpTo(out, outIgnored, k) == Kept(out, outIgnored);
    var items := Overwritten(out, outIgnored, Results(ins, ignored, f, j), j);
    assert Store(items, out.index, out.sorted).Read(k) == Err(OutOfRange);
    WalkOutputFails(ins, out, ignored, outIgnored, f, cur, k, items);
  }

  /** Every input is ready and the output cursor rests on an ignored item: it steps past it. */
  lemma OverwriteSkipsOutput<T, U>(ins: seq<Store<T>>, out: Store<U>, ignored: T -> bool, outIgnored: U -> bool,
                                f: seq<T> -> Result<U>, cur: seq<int>, k: int, j: nat)
    requires Passed(ins, ignored, cur, j) && RowsDefined(ins, ignored, f) && !Exhausted(ins, cur)
    requires OutputPassed(out, outIgnored, k, j) && k < |out.items| && j <= MinKept(ins, ignored)
    requires j <= |Kept(out, outIgnored)|
    requires !ScanInputs(ins, ignored, cur, |ins|).Skip? && outIgnored(out.Read(k).value)
    ensures OutputPassed(out, outIgnored, k + 1, j)
    ensures Walk(ins, out, ignored, outIgnored, f, false, cur, k, Overwritten(out, outIgnored, Results(ins, ignored, f, j), j))
         == Walk(ins, out, ignored, outIgnored, f, false, cur, k + 1, Overwritten(out, outIgnored, Results(ins, ignored, f, j), j))
  {
    ScanFacts(ins, ignored, cur, |ins|);
    var items := Overwritten(out, outIgnored, Results(ins, ignored, f, j), j);
    UnreachedUnchanged(out, outIgnored, Results(ins, ignored, f, j), j, k);
    WalkSkipsOutput(ins, out, ignored, outIgnored, f, cur, k, items);
  }

  /** Every input is ready and the output cursor rests on a kept item: it receives the j-th result. */
  lemma OverwriteReady<T, U>(ins: seq<Store<T>>, out: Store<U>, ignored: T -> bool, outIgnored: U -> bool,
                          f: seq<T> -> Result<U>, cur: seq<int>, k: int, j: nat)
    requires Passed(ins, ignored, cur, j) && RowsDefined(ins, ignored, f) && !Exhausted(ins, cur)
    requires OutputPassed(out, outIgnored, k, j) && k < |out.items| && j <= MinKept(ins, ignored)
    requires j <= |Kept(out, outIgnored)|
    requires !ScanInputs(ins, ignored, cur, |ins|).Skip? && !outIgnored(out.Read(k).value)
    ensures Passed(ins, ignored, Advance(cur), j + 1) && OutputPassed(out, outIgnored, k + 1, j + 1)
    ensures j + 1 <= MinKept(ins, ignored) && j + 1 <= |Kept(out, outIgnored)|
    ensures Remaining(ins, Advance(cur)) < Remaining(ins, cur)
    ensures Walk(ins, out, ignored, outIgnored, f, false, cur, k, Overwritten(out, outIgnored, Results(ins, ignored, f, j), j))
         == Walk(ins, out, ignored, outIgnored, f, false, Advance(cur), k + 1,
                 Overwritten(out, outIgnored, Results(ins, ignored, f, j + 1), j + 1))
  {
    ScanFacts(ins, ignored, cur, |ins|);
    var items := Overwritten(out, outIgnored, Results(ins, ignored, f, j), j);
    ReadyReadsRow(ins, ignored, cur, j);
    UnreachedUnchanged(out, outIgnored, Results(ins, ignored, f, j), j, k);
    KeptAt(out, outIgnored, k);
    WalkOverwritesOne(ins, out, ignored, outIgnored, f, cur, k, items);
    ResultsStep(ins, ignored, f, j);
    OverwriteStep(out, outIgnored, Results(ins, ignored, f, j + 1), j, k);
    RemainingStep(ins, cur, Advance(cur));
  }

  /**
   * Where the overwrite loop ends: the first min(m, n) results written to the
   * first kept positions of the output, where m is the number of steps and n
   * the number of kept output positions, and index(k) throwing when m > n.
   */
  function OverwriteEnd<T, U>(ins: seq<Store<T>>, out: Store<U>, ignored: T -> bool, outIgnored: U -> bool,
                              f: seq<T> -> Result<U>): WalkEnd<U>
    requires AllReadable(ins) && RowsDefined(ins, ignored, f) && out.WellFormed() && out.Readable()
  {
    var m := MinKept(ins, ignored);
    var n := |Kept(out, outIgnored)|;
    if m <= n then WalkEnd(Overwritten(out, outIgnored, Results(ins, ignored, f, m), m), None)
    else WalkEnd(Overwritten(out, outIgnored, Results(ins, ignored, f, n), n), Some(OutOfRange))
  }

  /** The inputs are exhausted after every one of the steps: the loop ends with all results written. */
  lemma OverwriteStops<T, U>(ins: seq<Store<T>>, out: Store<U>, ignored: T -> bool, outIgnored: U -> bool,
                             f: seq<T> -> Result<U>, cur: seq<int>, k: int, j: nat)
    requires Passed(ins, ignored, cur, j) && RowsDefined(ins, ignored, f) && OutputPassed(out, outIgnored, k, j)
    requires Exhausted(ins, cur) && j <= MinKept(ins, ignored) && j <= |Kept(out, outIgnored)|
    ensures Walk(ins, out, ignored, outIgnored, f, false, cur, k, Overwritten(out, outIgnored, Results(ins, ignored, f, j), j))
         == OverwriteEnd(ins, out, ignored, outIgnored, f)
  {
    StepsBounded(ins, ignored, cur, j);
    CountBound(out, outIgnored, k);
    WalkStops(ins, out, ignored, outIgnored, f, false, cur, k, Overwritten(out, outIgnored, Results(ins, ignored, f, j), j));
  }

  /**
   * What one iteration of the overwrite loop does: either the loop ends where
   * OverwriteEnd says, or it continues from a later point with the same
   * bookkeeping.
   */
  ghost predicate Iterates<T, U>(ins: seq<Store<T>>, out: Store<U>, ignored: T -> bool, outIgnored: U -> bool,
                           f: seq<T> -> Result<U>, cur: seq<int>, k: int, j: nat,
                           done: bool, cur': seq<int>, k': int, j': nat)
    requires Passed(ins, ignored, cur, j) && RowsDefined(ins, ignored, f) && OutputPassed(out, outIgnored, k, j)
    requires j <= MinKept(ins, ignored) && j <= |Kept(out, outIgnored)|
  {
    if done then
      Walk(ins, out, ignored, outIgnored, f, false, cur, k, Overwritten(out, outIgnored, Results(ins, ignored, f, j), j))
      == OverwriteEnd(ins, out, ignored, outIgnored, f)
    else
      && Passed(ins, ignored, cur', j') && OutputPassed(out, outIgnored, k', j')
      && (Remaining(ins, cur') < Remaining(ins, cur) || (Remaining(ins, cur') == Remaining(ins, cur) && k < k'))
      && j' <= MinKept(ins, ignored) && j' <= |Kept(out, outIgnored)|
      && Walk(ins, out, ignored, outIgnored, f, false, cur, k, Overwritten(out, outIgnored, Results(ins, ignored, f, j), j))
         == Walk(ins, out, ignored, outIgnored, f, false, cur', k', Overwritten(out, outIgnored, Results(ins, ignored, f, j'), j'))
  }

  /** An input cursor on an ignored item: the loop continues with that cursor one step on. */
  lemma IterationSkipsInput<T, U>(ins: seq<Store<T>>, out: Store<U>, ignored: T -> bool, outIgnored: U -> bool,
                                  f: seq<T> -> Result<U>, cur: seq<int>, k: int, j: nat)
      returns (cur': seq<int>)
    requires Passed(ins, ignored, cur, j) && RowsDefined(ins, ignored, f) && OutputPassed(out, outIgnored, k, j)
    requires !Exhausted(ins, cur) && j <= MinKept(ins, ignored) && j <= |Kept(out, outIgnored)|
    requires ScanInputs(ins, ignored, cur, |ins|).Skip?
    ensures Iterates(ins, out, ignored, outIgnored, f, cur, k, j, false, cur', k, j)
  {
    var items := Overwritten(out, outIgnored, Results(ins, ignored, f, j), j);
    cur' := SkipStep(ins, out, ignored, outIgnored, f, false, cur, k, items, j);
  }

  lemma IterationOffEnd<T, U>(ins: seq<Store<T>>, out: Store<U>, ignored: T -> bool, outIgnored: U -> bool,
                              f: seq<T> -> Result<U>, cur: seq<int>, k: int, j: nat)
    requires Passed(ins, ignored, cur, j) && RowsDefined(ins, ignored, f) && OutputPassed(out, outIgnored, k, j)
    requires !Exhausted(ins, cur) && j <= MinKept(ins, ignored) && j <= |Kept(out, outIgnored)|
    requires !ScanInputs(ins, ignored, cur, |ins|).Skip? && k == |out.items|
    ensures Iterates(ins, out, ignored, outIgnored, f, cur, k, j, true, cur, k, j)
  {
    OverwriteOffEnd(ins, out, ignored, outIgnored, f, cur, k, j);
  }

  lemma IterationSkipsOutput<T, U>(ins: seq<Store<T>>, out: Store<U>, ignored: T -> bool, outIgnored: U -> bool,
                                   f: seq<T> -> Result<U>, cur: seq<int>, k: int, j: nat)
    requires Passed(ins, ignored, cur, j) && RowsDefined(ins, ignored, f) && OutputPassed(out, outIgnored, k, j)
    requires !Exhausted(ins, cur) && j <= MinKept(ins, ignored) && j <= |Kept(out, outIgnored)|
    requires !ScanInputs(ins, ignored, cur, |ins|).Skip? && k < |out.items| && outIgnored(out.Read(k).value)
    ensures Iterates(ins, out, ignored, outIgnored, f, cur, k, j, false, cur, k + 1, j)
  {
    OverwriteSkipsOutput(ins, out, ignored, outIgnored, f, cur, k, j);
  }

  lemma IterationWrites<T, U>(ins: seq<Store<T>>, out: Store<U>, ignored: T -> bool, outIgnored: U -> bool,
                              f: seq<T> -> Result<U>, cur: seq<int>, k: int, j: nat)
    requires Passed(ins, ignored, cur, j) && RowsDefined(ins, ignored, f) && OutputPassed(out, outIgnored, k, j)
    requires !Exhausted(ins, cur) && j <= MinKept(ins, ignored) && j <= |Kept(out, outIgnored)|
    requires !ScanInputs(ins, ignored, cur, |ins|).Skip? && k < |out.items| && !outIgnored(out.Read(k).value)
    ensures Iterates(ins, out, ignored, outIgnored, f, cur, k, j, false, Advance(cur), k + 1, j + 1)
  {
    OverwriteReady(ins, out, ignored, outIgnored, f, cur, k, j);
  }

  lemma OverwriteIteration<T, U>(ins: seq<Store<T>>, out: Store<U>, ignored: T -> bool, outIgnored: U -> bool,
                                 f: seq<T> -> Result<U>, cur: seq<int>, k: int, j: nat)
      returns (done: bool, cur': seq<int>, k': int, j': nat)
    requires Passed(ins, ignored, cur, j) && RowsDefined(ins, ignored, f) && OutputPassed(out, outIgnored, k, j)
    requires !Exhausted(ins, cur) && j <= MinKept(ins, ignored) && j <= |Kept(out, outIgnored)|
    ensures Iterates(ins, out, ignored, outIgnored, f, cur, k, j, done, cur', k', j')
  {
    if ScanInputs(ins, ignored, cur, |ins|).Skip? {
      done, k', j' := false, k, j;
      cur' := IterationSkipsInput(ins, out, ignored, outIgnored, f, cur, k, j);
    } else if k == |out.items| {
      done, cur', k', j' := true, cur, k, j;
      IterationOffEnd(ins, out, ignored, outIgnored, f, cur, k, j);
    } else if outIgnored(out.Read(k).value) {
      done, cur', k', j' := false, cur, k + 1, j;
      IterationSkipsOutput(ins, out, ignored, outIgnored, f, cur, k, j);
    } else {
      done, cur', k', j' := false, Advance(cur), k + 1, j + 1;
      IterationWrites(ins, out, ignored, outIgnored, f, cur, k, j);
    }
  }

  /** The overwrite loop from any point where the inputs have passed j kept items and the output cursor j kept positions. */
  lemma {:induction false} WalkOverwritesFrom<T, U>(ins: seq<Store<T>>, out: Store<U>, ignored: T -> bool, outIgnored: U -> bool,
                                                    f: seq<T> -> Result<U>, cur: seq<int>, k: int, j: nat)
    requires Passed(ins, ignored, cur, j) && RowsDefined(ins, ignored, f) && OutputPassed(out, outIgnored, k, j)
    requires j <= MinKept(ins, ignored) && j <= |Kept(out, outIgnored)|
    ensures Walk(ins, out, ignored, outIgnored, f, false, cur, k, Overwritten(out, outIgnored, Results(ins, ignored, f, j), j))
         == OverwriteEnd(ins, out, ignored, outIgnored, f)
    decreases Remaining(ins, cur), |out.items| - k
  {
    if Exhausted(ins, cur) {
      OverwriteStops(ins, out, ignored, outIgnored, f, cur, k, j);
    } else {
      StepsBounded(ins, ignored, cur, j);
      CountBound(out, outIgnored, k);
      var done, cur', k', j' := OverwriteIteration(ins, out, ignored, outIgnored, f, cur, k, j);
      if !done {
        RemainingNonNegative(ins, cur');
        WalkOverwritesFrom(ins, out, ignored, outIgnored, f, cur', k', j');
      }
    }
  }

  /**
   * Overwriting a non-empty output: the j-th kept logical position of the
   * output receives the j-th result. When the output has fewer kept
   * positions than there are steps, the output cursor runs off its end and
   * index(k) throws after the last of them has been written.
   */
  lemma WalkOverwrites<T, U>(ins: seq<Store<T>>, out: Store<U>, ignored: T -> bool, outIgnored: U -> bool, f: seq<T> -> Result<U>)
    requires |ins| >= 1 && AllReadable(ins) && RowsDefined(ins, ignored, f)
    requires |out.items| > 0 && out.WellFormed() && out.Readable()
    ensures var m := MinKept(ins, ignored);
      var n := |Kept(out, outIgnored)|;
      WalkFrom(ins, out, ignored, outIgnored, f)
      == if m <= n then WalkEnd(Overwritten(out, outIgnored, Results(ins, ignored, f, m), m), None)
         else WalkEnd(Overwritten(out, outIgnored, Results(ins, ignored, f, n), n), Some(OutOfRange))
  {
    WalkOverwritesFrom(ins, out, ignored, outIgnored, f, Zeros(|ins|), 0, 0);
  }
}

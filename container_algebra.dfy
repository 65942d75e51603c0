/**
 * The container-level algebra of MRAcquisitionData stated on values: what one
 * step of each algebra loop computes from the acquisitions it has read, and
 * what the reductions dot, sum, max and norm return. The loops themselves are
 * the methods of the acquisition container; this module gives them their
 * specifications and proves how the reductions relate to each other.
 */
module ContainerAlgebra {
  import opened Complexes
  import opened Errors
  import opened Ismrmrd
  import opened Stores
  import opened ContainerWalk
  import opened AcquisitionOps

  // ------------------------------------------------------------ the inner probe

  /** The tests at the head of every algebra loop: get_acquisition on each input in turn. */
  method ProbeInputs<T>(ins: seq<Store<T>>, ignored: T -> bool, cur: seq<int>) returns (p: Probe<T>)
    requires |ins| == |cur|
    ensures p == ScanInputs(ins, ignored, cur, |ins|)
  {
    var got: seq<T> := [];
    var n := 0;
    while n < |ins|
      invariant 0 <= n <= |ins|
      invariant ScanInputs(ins, ignored, cur, n) == Ready(got)
    {
      var x := ins[n].Read(cur[n]);
      if x.Err? {
        ScanInputsStopped(ins, ignored, cur, n + 1, |ins|);
        return ReadFailed(x.error);
      }
      if ignored(x.value) {
        ScanInputsStopped(ins, ignored, cur, n + 1, |ins|);
        return Skip(n);
      }
      got := got + [x.value];
      n := n + 1;
    }
    p := Ready(got);
  }

  /**
   * One pass through the body of an algebra loop whose condition holds: an input
   * cursor steps past an ignored item, or the output cursor steps past an ignored
   * output item, or the result for the current items is appended or written at the
   * output cursor; a failing read, operation or write ends the loop with its exception.
   */
  method WalkStep<T, U>(ins: seq<Store<T>>, out: Store<U>, ignored: T -> bool, outIgnored: U -> bool,
                        f: seq<T> -> Result<U>, append: bool, cur: seq<int>, k: int, items: seq<U>)
    returns (cur': seq<int>, k': int, items': seq<U>, error: Option<Error>)
    requires |ins| >= 1 && CursorsInRange(ins, cur) && (!append ==> |items| == |out.items|)
    requires !Exhausted(ins, cur)
    ensures CursorsInRange(ins, cur') && (!append ==> |items'| == |out.items|)
    ensures append ==> k' == |items'| - |items| + k
    ensures append ==> |items| <= |items'| <= |items| + 1 && items'[..|items|] == items
    ensures error.Some? ==> Walk(ins, out, ignored, outIgnored, f, append, cur, k, items) == WalkEnd(items', error)
    ensures error.None? ==>
      Walk(ins, out, ignored, outIgnored, f, append, cur, k, items) == Walk(ins, out, ignored, outIgnored, f, append, cur', k', items')
    ensures error.None? ==>
      Remaining(ins, cur') < Remaining(ins, cur) ||
      (cur' == cur && |items'| == |items| && 0 <= |items| - k && |items'| - k' < |items| - k)
  {
    cur', k', items', error := cur, k, items, None;
    var probe := ProbeInputs(ins, ignored, cur);
    match probe
    case ReadFailed(e) =>
      WalkReadFails(ins, out, ignored, outIgnored, f, append, cur, k, items);
      error := Some(e);
    case Skip(i) =>
      WalkSkipsInput(ins, out, ignored, outIgnored, f, append, cur, k, items);
      RemainingStep(ins, cur, cur[i := cur[i] + 1]);
      cur' := cur[i := cur[i] + 1];
    case Ready(got) =>
      var target := Store(items, out.index, out.sorted);
      if !append {
        var current := target.Read(k);
        if current.Err? {
          WalkOutputFails(ins, out, ignored, outIgnored, f, cur, k, items);
          return cur, k, items, Some(current.error);
        }
        if outIgnored(current.value) {
          WalkSkipsOutput(ins, out, ignored, outIgnored, f, cur, k, items);
          return cur, k + 1, items, None;
        }
      }
      var v := f(got);
      if v.Err? {
        WalkStepFails(ins, out, ignored, outIgnored, f, append, cur, k, items);
        return cur, k, items, Some(v.error);
      }
      RemainingStep(ins, cur, Advance(cur));
      if append {
        WalkAppendsOne(ins, out, ignored, outIgnored, f, cur, k, items);
        items' := items + [v.value];
      } else {
        WalkOverwritesOne(ins, out, ignored, outIgnored, f, cur, k, items);
        items' := target.Write(k, v.value).value;
      }
      cur' := Advance(cur);
      k' := k + 1;
  }

  // ------------------------------------------------------- one step of each loop

  /** axpby: the current acquisition of y with samples a*x + b*y. Inputs: x, y. */
  function AxpbyRow(a: Complex, b: Complex): seq<Acquisition> -> Result<Acquisition> {
    (got: seq<Acquisition>) => if |got| == 2 then Ok(got[1].(data := AxpbySamples(a, got[0].data, b, got[1].data))) else Err(Undefined)
  }

  /** xapyb with containers a and b: samples a*x + b*y. Inputs in the order probed: x, y, a, b. */
  function Xapyb4Row(): seq<Acquisition> -> Result<Acquisition> {
    (got: seq<Acquisition>) => if |got| == 4 then
             (match Xapyb4Samples(got[0].data, got[2].data, got[1].data, got[3].data)
              case Ok(d) => Ok(got[1].(data := d))
              case Err(e) => Err(e))
           else Err(Undefined)
  }

  /** xapyb with a scalar a and a container b. Inputs: x, y, b. */
  function Xapyb3Row(a: Complex): seq<Acquisition> -> Result<Acquisition> {
    (got: seq<Acquisition>) => if |got| == 3 then Ok(got[1].(data := Xapyb3Samples(got[0].data, a, got[1].data, got[2].data))) else Err(Undefined)
  }

  /** binary_op with an element-wise f. Inputs: x, y. */
  function BinaryRow(f: (Complex, Complex) -> Complex): seq<Acquisition> -> Result<Acquisition> {
    (got: seq<Acquisition>) => if |got| == 2 then Ok(got[1].(data := BinarySamples(got[0].data, got[1].data, f))) else Err(Undefined)
  }

  /** semibinary_op: the acquisition of x is read twice, as ax and as ay. Input: x. */
  function SemibinaryRow(c: Complex, f: (Complex, Complex) -> Complex): seq<Acquisition> -> Result<Acquisition> {
    (got: seq<Acquisition>) => if |got| == 1 then Ok(got[0].(data := SemibinarySamples(got[0].data, got[0].data, c, f))) else Err(Undefined)
  }

  /** unary_op, reading the acquisition of x twice in the same way. Input: x. */
  function UnaryRow(f: Complex -> Complex): seq<Acquisition> -> Result<Acquisition> {
    (got: seq<Acquisition>) => if |got| == 1 then Ok(got[0].(data := UnarySamples(got[0].data, got[0].data, f))) else Err(Undefined)
  }

  // ---------------------------------------------------------------- reductions

  /** The reductions write no container: their walk appends to an output that is never read. */
  function NoOutput(): Store<Complex> { Store([], [], false) }

  predicate NeverIgnored(z: Complex) { false }

  /** dot, sum and norm add up the per-acquisition values; max keeps the first with the largest real part. */
  datatype Reduction = Summed | Largest

  function Total(zs: seq<Complex>, kind: Reduction): Complex {
    match kind
    case Summed => SumUpTo(zs, |zs|)
    case Largest => MaxUpTo(zs, |zs|)
  }

  /** One more value folded into the running total, as the reduction loops do it. */
  function Accumulate(z: Complex, v: Complex, kind: Reduction): Complex {
    match kind
    case Summed => Add(z, v)
    case Largest => if v.re > z.re then v else z
  }

  /** The running total of a prefix, extended by one value, is the total of the longer prefix. */
  lemma TotalStep(zs: seq<Complex>, v: Complex, kind: Reduction)
    ensures Total(zs + [v], kind) == Accumulate(Total(zs, kind), v, kind)
  {
    var n := |zs|;
    match kind
    case Summed =>
      SumUpToPrefix(zs + [v], zs, n);
    case Largest =>
      MaxUpToPrefix(zs + [v], zs, n);
  }

  /** The total after a loop step that appended at most one value. */
  lemma TotalOfNext(zs: seq<Complex>, next: seq<Complex>, kind: Reduction)
    requires |zs| <= |next| <= |zs| + 1 && next[..|zs|] == zs
    ensures Total(next, kind) == if |next| > |zs| then Accumulate(Total(zs, kind), next[|zs|], kind) else Total(zs, kind)
  {
    if |next| > |zs| {
      assert next == zs + [next[|zs|]];
      TotalStep(zs, next[|zs|], kind);
    } else {
      assert next == zs;
    }
  }

  lemma {:induction false} SumUpToPrefix(a: seq<Complex>, b: seq<Complex>, n: nat)
    requires n <= |a| && n <= |b| && a[..n] == b[..n]
    ensures SumUpTo(a, n) == SumUpTo(b, n)
  {
    if n > 0 {
      assert a[..n - 1] == a[..n][..n - 1] && b[..n - 1] == b[..n][..n - 1];
      assert a[n - 1] == a[..n][n - 1] && b[n - 1] == b[..n][n - 1];
      SumUpToPrefix(a, b, n - 1);
    }
  }

  lemma {:induction false} MaxUpToPrefix(a: seq<Complex>, b: seq<Complex>, n: nat)
    requires n <= |a| && n <= |b| && a[..n] == b[..n]
    ensures MaxUpTo(a, n) == MaxUpTo(b, n)
  {
    if n > 0 {
      assert a[..n - 1] == a[..n][..n - 1] && b[..n - 1] == b[..n][..n - 1];
      assert a[n - 1] == a[..n][n - 1] && b[n - 1] == b[..n][n - 1];
      MaxUpToPrefix(a, b, n - 1);
    }
  }

  /** A reduction over the kept acquisitions of the inputs: the walk's values folded, or its exception. */
  function Reduced(ins: seq<Store<Acquisition>>, f: seq<Acquisition> -> Result<Complex>, kind: Reduction): Result<Complex>
    requires |ins| >= 1
  {
    var w := WalkFrom(ins, NoOutput(), ToBeIgnored, NeverIgnored, f);
    if w.error.Some? then Err(w.error.value) else Ok(Total(w.items, kind))
  }

  /** dot(a, b) of the current pair. Inputs: this container, the other. */
  function DotRow(got: seq<Acquisition>): Result<Complex> {
    if |got| == 2 then Ok(DotUpTo(got[0].data, got[1].data, Min(|got[0].data|, |got[1].data|))) else Err(Undefined)
  }

  function SumRow(got: seq<Acquisition>): Result<Complex> {
    if |got| == 1 then Ok(SumUpTo(got[0].data, |got[0].data|)) else Err(Undefined)
  }

  function MaxRow(got: seq<Acquisition>): Result<Complex> {
    if |got| == 1 then Ok(MaxUpTo(got[0].data, |got[0].data|)) else Err(Undefined)
  }

  /** norm(a)^2 of the current acquisition, as a real value. */
  function NormRow(got: seq<Acquisition>): Result<Complex> {
    if |got| == 1 then Ok(Complex(NormSqUpTo(got[0].data, |got[0].data|), 0.0)) else Err(Undefined)
  }

  function ContainerDot(x: Store<Acquisition>, y: Store<Acquisition>): Result<Complex> {
    Reduced([x, y], DotRow, Summed)
  }

  function ContainerSum(x: Store<Acquisition>): Result<Complex> {
    Reduced([x], SumRow, Summed)
  }

  function ContainerMax(x: Store<Acquisition>): Result<Complex> {
    Reduced([x], MaxRow, Largest)
  }

  /** The sum of squares whose square root norm() returns. */
  function ContainerNormSq(x: Store<Acquisition>): Result<real> {
    var z :- Reduced([x], NormRow, Summed);
    Ok(z.re)
  }

  /** On readable inputs a reduction folds the per-step values of the paired kept acquisitions. */
  lemma ReducedOfReadable(ins: seq<Store<Acquisition>>, f: seq<Acquisition> -> Result<Complex>, kind: Reduction)
    requires |ins| >= 1 && AllReadable(ins) && RowsDefined(ins, ToBeIgnored, f)
    ensures Reduced(ins, f, kind) == Ok(Total(Results(ins, ToBeIgnored, f, MinKept(ins, ToBeIgnored)), kind))
  {
    WalkAppends(ins, NoOutput(), ToBeIgnored, NeverIgnored, f);
  }

  /** Conjugating every value conjugates the sum. */
  lemma {:induction false} SumUpToConj(zs: seq<Complex>, ws: seq<Complex>, n: nat)
    requires n <= |zs| && n <= |ws|
    requires forall k :: 0 <= k < n ==> zs[k] == Conj(ws[k])
    ensures SumUpTo(zs, n) == Conj(SumUpTo(ws, n))
  {
    if n > 0 {
      SumUpToConj(zs, ws, n - 1);
    }
  }

  /** The kept acquisitions of two containers pair up the same way whichever comes first. */
  lemma SwappedRows(x: Store<Acquisition>, y: Store<Acquisition>, j: nat)
    requires x.Readable() && y.Readable() && j < MinKept([x, y], ToBeIgnored)
    ensures MinKept([y, x], ToBeIgnored) == MinKept([x, y], ToBeIgnored)
    ensures Row([y, x], ToBeIgnored, j) == [Row([x, y], ToBeIgnored, j)[1], Row([x, y], ToBeIgnored, j)[0]]
  {
    assert [x, y][0] == x && [x, y][1] == y && [y, x][0] == y && [y, x][1] == x;
  }

  /** dot(x, y) is the conjugate of dot(y, x) on readable containers. */
  lemma ContainerDotConjugateSymmetric(x: Store<Acquisition>, y: Store<Acquisition>)
    requires x.Readable() && y.Readable()
    ensures ContainerDot(x, y).Ok? && ContainerDot(y, x).Ok?
    ensures ContainerDot(x, y).value == Conj(ContainerDot(y, x).value)
  {
    var xy, yx := [x, y], [y, x];
    ResultsConjugate(x, y);
    ReducedOfReadable(xy, DotRow, Summed);
    ReducedOfReadable(yx, DotRow, Summed);
    var m := MinKept(xy, ToBeIgnored);
    SumUpToConj(Results(xy, ToBeIgnored, DotRow, m), Results(yx, ToBeIgnored, DotRow, m), m);
  }

  /** The values dot(x, y) adds up are the conjugates of those dot(y, x) adds up, row by row. */
  lemma ResultsConjugate(x: Store<Acquisition>, y: Store<Acquisition>)
    requires x.Readable() && y.Readable()
    ensures AllReadable([x, y]) && AllReadable([y, x])
    ensures MinKept([y, x], ToBeIgnored) == MinKept([x, y], ToBeIgnored)
    ensures RowsDefined([x, y], ToBeIgnored, DotRow) && RowsDefined([y, x], ToBeIgnored, DotRow)
    ensures var m := MinKept([x, y], ToBeIgnored);
      forall k :: 0 <= k < m ==>
        Results([x, y], ToBeIgnored, DotRow, m)[k] == Conj(Results([y, x], ToBeIgnored, DotRow, m)[k])
  {
    var xy, yx := [x, y], [y, x];
    SwappedRowsCount(x, y);
    assert AllReadable(xy) && AllReadable(yx) by {
      assert xy[0] == x && xy[1] == y && yx[0] == y && yx[1] == x;
    }
    var m := MinKept(xy, ToBeIgnored);
    forall j | 0 <= j < m
      ensures DotRow(Row(xy, ToBeIgnored, j)).Ok? && DotRow(Row(yx, ToBeIgnored, j)).Ok?
    {
      DotRowsConjugate(x, y, j);
    }
    assert RowsDefined(xy, ToBeIgnored, DotRow) && RowsDefined(yx, ToBeIgnored, DotRow);
    var zs, ws := Results(xy, ToBeIgnored, DotRow, m), Results(yx, ToBeIgnored, DotRow, m);
    forall k | 0 <= k < m ensures zs[k] == Conj(ws[k]) {
      DotRowsConjugate(x, y, k);
    }
  }

  /** The j-th value dot(x, y) adds up is the conjugate of the j-th value dot(y, x) adds up. */
  lemma DotRowsConjugate(x: Store<Acquisition>, y: Store<Acquisition>, j: nat)
    requires x.Readable() && y.Readable() && j < MinKept([x, y], ToBeIgnored)
    ensures j < MinKept([y, x], ToBeIgnored)
    ensures DotRow(Row([x, y], ToBeIgnored, j)).Ok? && DotRow(Row([y, x], ToBeIgnored, j)).Ok?
    ensures DotRow(Row([x, y], ToBeIgnored, j)).value == Conj(DotRow(Row([y, x], ToBeIgnored, j)).value)
  {
    SwappedRows(x, y, j);
    var a, b := Row([x, y], ToBeIgnored, j)[0], Row([x, y], ToBeIgnored, j)[1];
    DotConjugateSymmetric(a.data, b.data, Min(|a.data|, |b.data|));
    assert Min(|a.data|, |b.data|) == Min(|b.data|, |a.data|);
  }

  lemma SwappedRowsCount(x: Store<Acquisition>, y: Store<Acquisition>)
    requires x.Readable() && y.Readable()
    ensures MinKept([y, x], ToBeIgnored) == MinKept([x, y], ToBeIgnored)
  {
    assert [x, y][0] == x && [x, y][1] == y && [y, x][0] == y && [y, x][1] == x;
  }

  /** norm()^2 is the real part of dot(x, x) on a readable container. */
  lemma ContainerNormSqIsDot(x: Store<Acquisition>)
    requires x.Readable()
    ensures ContainerDot(x, x).Ok?
    ensures ContainerNormSq(x) == Ok(ContainerDot(x, x).value.re)
  {
    var xx, one := [x, x], [x];
    assert AllReadable(xx) && AllReadable(one);
    assert xx[0] == x && xx[1] == x && one[0] == x;
    ReducedOfReadable(xx, DotRow, Summed);
    ReducedOfReadable(one, NormRow, Summed);
    var m := MinKept(one, ToBeIgnored);
    assert MinKept(xx, ToBeIgnored) == m;
    forall j | 0 <= j < m
      ensures Results(xx, ToBeIgnored, DotRow, m)[j] == Results(one, ToBeIgnored, NormRow, m)[j]
    {
      NormRowIsDotRow(x, j);
    }
    assert Results(xx, ToBeIgnored, DotRow, m) == Results(one, ToBeIgnored, NormRow, m);
  }

  /** The j-th value norm() adds up is dot(a, a) of the j-th kept acquisition. */
  lemma NormRowIsDotRow(x: Store<Acquisition>, j: nat)
    requires x.Readable() && j < MinKept([x], ToBeIgnored)
    ensures j < MinKept([x, x], ToBeIgnored)
    ensures DotRow(Row([x, x], ToBeIgnored, j)) == NormRow(Row([x], ToBeIgnored, j))
  {
    var xx, one := [x, x], [x];
    assert xx[0] == x && xx[1] == x && one[0] == x;
    var a := Row(one, ToBeIgnored, j)[0];
    assert Row(xx, ToBeIgnored, j) == [a, a];
    DotSelf(a.data, |a.data|);
  }

  /** max() over a readable container is at least zero and bounds every kept acquisition's max(a). */
  lemma ContainerMaxBounds(x: Store<Acquisition>)
    requires x.Readable()
    ensures ContainerMax(x).Ok? && ContainerMax(x).value.re >= 0.0
    ensures forall j :: 0 <= j < |Kept(x, ToBeIgnored)| ==>
      MaxRow([x.Read(Kept(x, ToBeIgnored)[j]).value]).value.re <= ContainerMax(x).value.re
  {
    var one := [x];
    assert AllReadable(one) && one[0] == x;
    ReducedOfReadable(one, MaxRow, Largest);
    forall j | 0 <= j < |Kept(x, ToBeIgnored)|
      ensures MaxRow([x.Read(Kept(x, ToBeIgnored)[j]).value]).value.re <= ContainerMax(x).value.re
    {
      MaxRowIsResult(x, j);
    }
  }

  /** The j-th value max() compares is max(a) of the j-th kept acquisition. */
  lemma MaxRowIsResult(x: Store<Acquisition>, j: nat)
    requires x.Readable() && j < |Kept(x, ToBeIgnored)|
    ensures AllReadable([x]) && j < MinKept([x], ToBeIgnored) && RowsDefined([x], ToBeIgnored, MaxRow)
    ensures var r := Results([x], ToBeIgnored, MaxRow, MinKept([x], ToBeIgnored));
      r[j] == MaxRow([x.Read(Kept(x, ToBeIgnored)[j]).value]).value && r[j].re <= MaxUpTo(r, |r|).re
  {
    var one := [x];
    assert AllReadable(one) && one[0] == x;
    assert Row(one, ToBeIgnored, j) == [x.Read(Kept(x, ToBeIgnored)[j]).value];
  }
}

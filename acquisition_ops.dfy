/**
 * The per-acquisition algebra of MRAcquisitionData: element-wise loops that
 * walk the sample arrays of two to four acquisitions in step and overwrite the
 * samples of the acquisition y, and the reductions over one or two sample
 * arrays. Each loop stops at the end of the shortest array it tests.
 */
module AcquisitionOps {
  import opened Complexes
  import opened Errors
  import opened Ismrmrd

  function Min(a: int, b: int): int { if a < b then a else b }

  /** The samples of y after y := a*x + b*y (y := a*x when b is zero) over the common length. */
  function AxpbySamples(a: Complex, x: seq<Complex>, b: Complex, y: seq<Complex>): seq<Complex> {
    seq(|y|, k requires 0 <= k < |y| =>
      if k < |x| then (if b == Zero then Mul(a, x[k]) else Add(Mul(a, x[k]), Mul(b, y[k])))
      else y[k])
  }

  /** The samples of y after y := a*x + b*y with a scalar a and per-sample b. */
  function Xapyb3Samples(x: seq<Complex>, a: Complex, y: seq<Complex>, b: seq<Complex>): seq<Complex> {
    seq(|y|, k requires 0 <= k < |y| =>
      if k < |x| && k < |b| then Add(Mul(a, x[k]), Mul(b[k], y[k])) else y[k])
  }

  /**
   * The samples of y after y := a*x + b*y with per-sample a and b. The loop
   * tests only the ends of y and b, so it reads x and a past their ends when
   * they are shorter than both: that is undefined behaviour.
   */
  function Xapyb4Samples(x: seq<Complex>, a: seq<Complex>, y: seq<Complex>, b: seq<Complex>): Result<seq<Complex>> {
    var n := Min(|y|, |b|);
    if n > |x| || n > |a| then Err(Undefined)
    else Ok(seq(|y|, k requires 0 <= k < |y| =>
      if k < n then Add(Mul(a[k], x[k]), Mul(b[k], y[k])) else y[k]))
  }

  function BinarySamples(x: seq<Complex>, y: seq<Complex>, f: (Complex, Complex) -> Complex): seq<Complex> {
    seq(|y|, k requires 0 <= k < |y| => if k < |x| then f(x[k], y[k]) else y[k])
  }

  function SemibinarySamples(x: seq<Complex>, y: seq<Complex>, c: Complex, f: (Complex, Complex) -> Complex): seq<Complex> {
    seq(|y|, k requires 0 <= k < |y| => if k < |x| then f(x[k], c) else y[k])
  }

  function UnarySamples(x: seq<Complex>, y: seq<Complex>, f: Complex -> Complex): seq<Complex> {
    seq(|y|, k requires 0 <= k < |y| => if k < |x| then f(x[k]) else y[k])
  }

  /** axpby(a, x, b, y): overwrites the samples of y; its header stays. */
  method Axpby(a: Complex, x: Acquisition, b: Complex, y: Acquisition) returns (r: Acquisition)
    ensures r == y.(data := AxpbySamples(a, x.data, b, y.data))
  {
    var d := y.data;
    var k := 0;
    while k < |x.data| && k < |d|
      invariant 0 <= k <= |d| == |y.data|
      invariant forall m :: 0 <= m < |d| ==>
        d[m] == if m < k then AxpbySamples(a, x.data, b, y.data)[m] else y.data[m]
    {
      if b == Zero {
        d := d[k := Mul(a, x.data[k])];
      } else {
        d := d[k := Add(Mul(a, x.data[k]), Mul(b, d[k]))];
      }
      k := k + 1;
    }
    r := y.(data := d);
  }

  /** xapyb(x, a, y, b) with scalars a and b is axpby(a, x, b, y). */
  method XapybScalars(x: Acquisition, a: Complex, y: Acquisition, b: Complex) returns (r: Acquisition)
    ensures r == y.(data := AxpbySamples(a, x.data, b, y.data))
  {
    r := Axpby(a, x, b, y);
  }

  /** xapyb(x, a, y, b) with a per-sample acquisition a and b. */
  method Xapyb4(x: Acquisition, a: Acquisition, y: Acquisition, b: Acquisition) returns (r: Result<Acquisition>)
    ensures Xapyb4Samples(x.data, a.data, y.data, b.data).Err? ==> r == Err(Undefined)
    ensures Xapyb4Samples(x.data, a.data, y.data, b.data).Ok? ==>
      r == Ok(y.(data := Xapyb4Samples(x.data, a.data, y.data, b.data).value))
  {
    var d := y.data;
    var k := 0;
    while k < |d| && k < |b.data|
      invariant 0 <= k <= |d| == |y.data|
      invariant k <= |b.data| && k <= |x.data| && k <= |a.data|
      invariant forall m :: 0 <= m < |d| ==>
        d[m] == if m < k then Add(Mul(a.data[m], x.data[m]), Mul(b.data[m], y.data[m])) else y.data[m]
    {
      if k >= |x.data| || k >= |a.data| {
        return Err(Undefined);
      }
      d := d[k := Add(Mul(a.data[k], x.data[k]), Mul(b.data[k], d[k]))];
      k := k + 1;
    }
    ghost var spec := Xapyb4Samples(x.data, a.data, y.data, b.data);
    assert spec.Ok? && |spec.value| == |d|;
    assert forall m :: 0 <= m < |d| ==> d[m] == spec.value[m];
    assert d == spec.value;
    r := Ok(y.(data := d));
  }

  /** xapyb(x, a, y, b) with a scalar a and a per-sample acquisition b. */
  method Xapyb3(x: Acquisition, a: Complex, y: Acquisition, b: Acquisition) returns (r: Acquisition)
    ensures r == y.(data := Xapyb3Samples(x.data, a, y.data, b.data))
  {
    var d := y.data;
    var k := 0;
    while k < |x.data| && k < |d| && k < |b.data|
      invariant 0 <= k <= |d| == |y.data|
      invariant forall m :: 0 <= m < |d| ==>
        d[m] == if m < k then Xapyb3Samples(x.data, a, y.data, b.data)[m] else y.data[m]
    {
      d := d[k := Add(Mul(a, x.data[k]), Mul(b.data[k], d[k]))];
      k := k + 1;
    }
    r := y.(data := d);
  }

  /** binary_op: y[k] := f(x[k], y[k]) over the common length. */
  method BinaryOp(x: Acquisition, y: Acquisition, f: (Complex, Complex) -> Complex) returns (r: Acquisition)
    ensures r == y.(data := BinarySamples(x.data, y.data, f))
  {
    var d := y.data;
    var k := 0;
    while k < |x.data| && k < |d|
      invariant 0 <= k <= |d| == |y.data|
      invariant forall m :: 0 <= m < |d| ==> d[m] == if m < k then BinarySamples(x.data, y.data, f)[m] else y.data[m]
    {
      d := d[k := f(x.data[k], d[k])];
      k := k + 1;
    }
    r := y.(data := d);
  }

  /** semibinary_op: y[k] := f(x[k], c) over the common length. */
  method SemibinaryOp(x: Acquisition, y: Acquisition, c: Complex, f: (Complex, Complex) -> Complex) returns (r: Acquisition)
    ensures r == y.(data := SemibinarySamples(x.data, y.data, c, f))
  {
    var d := y.data;
    var k := 0;
    while k < |x.data| && k < |d|
      invariant 0 <= k <= |d| == |y.data|
      invariant forall m :: 0 <= m < |d| ==> d[m] == if m < k then SemibinarySamples(x.data, y.data, c, f)[m] else y.data[m]
    {
      d := d[k := f(x.data[k], c)];
      k := k + 1;
    }
    r := y.(data := d);
  }

  /** unary_op: y[k] := f(x[k]) over the common length. */
  method UnaryOp(x: Acquisition, y: Acquisition, f: Complex -> Complex) returns (r: Acquisition)
    ensures r == y.(data := UnarySamples(x.data, y.data, f))
  {
    var d := y.data;
    var k := 0;
    while k < |x.data| && k < |d|
      invariant 0 <= k <= |d| == |y.data|
      invariant forall m :: 0 <= m < |d| ==> d[m] == if m < k then UnarySamples(x.data, y.data, f)[m] else y.data[m]
    {
      d := d[k := f(x.data[k])];
      k := k + 1;
    }
    r := y.(data := d);
  }

  /** multiply(x, y): the element-wise product, written into y. */
  method Multiply(x: Acquisition, y: Acquisition) returns (r: Acquisition)
    ensures r == y.(data := BinarySamples(x.data, y.data, Mul))
  {
    r := BinaryOp(x, y, Mul);
  }

  /** multiply(x, y, c): x scaled by the scalar c, written into y. */
  method MultiplyScalar(x: Acquisition, y: Acquisition, c: Complex) returns (r: Acquisition)
    ensures r == y.(data := SemibinarySamples(x.data, y.data, c, Mul))
  {
    r := SemibinaryOp(x, y, c, Mul);
  }

  /** add(x, y, c): x shifted by the scalar c, written into y. */
  method AddScalar(x: Acquisition, y: Acquisition, c: Complex) returns (r: Acquisition)
    ensures r == y.(data := SemibinarySamples(x.data, y.data, c, Add))
  {
    r := SemibinaryOp(x, y, c, Add);
  }

  // Relations between the element-wise loops.

  /** axpby is the three-operand xapyb with b repeated over every sample of y. */
  lemma AxpbyIsXapyb3(a: Complex, x: seq<Complex>, b: Complex, y: seq<Complex>)
    ensures AxpbySamples(a, x, b, y) == Xapyb3Samples(x, a, y, seq(|y|, _ => b))
  {
    var l := AxpbySamples(a, x, b, y);
    var r := Xapyb3Samples(x, a, y, seq(|y|, _ => b));
    forall k | 0 <= k < |y| ensures l[k] == r[k] {
      if k < |x| && b == Zero {
        assert Mul(b, y[k]) == Zero;
      }
    }
  }

  /** The four-operand xapyb with a repeated over every sample is the three-operand one, when defined. */
  lemma Xapyb4WithScalarA(x: seq<Complex>, a: Complex, y: seq<Complex>, b: seq<Complex>)
    requires |x| >= |y|
    ensures Xapyb4Samples(x, seq(|x|, _ => a), y, b) == Ok(Xapyb3Samples(x, a, y, b))
  {
    var l := Xapyb4Samples(x, seq(|x|, _ => a), y, b).value;
    var r := Xapyb3Samples(x, a, y, b);
    forall k | 0 <= k < |y| ensures l[k] == r[k] {
      if k < |b| {
        assert Mul(a, x[k]) == Mul(seq(|x|, _ => a)[k], x[k]);
      }
    }
    assert l == r;
  }

  /** The four-operand xapyb is defined exactly when x and a reach as far as the shorter of y and b. */
  lemma Xapyb4DefinedIff(x: seq<Complex>, a: seq<Complex>, y: seq<Complex>, b: seq<Complex>)
    ensures Xapyb4Samples(x, a, y, b).Ok? <==> Min(|y|, |b|) <= |x| && Min(|y|, |b|) <= |a|
  {
  }

  /**
   * Each element-wise loop keeps the sample count of y and the samples of y past
   * the end of x: axpby, both xapyb forms (the four-operand one when defined),
   * binary_op, semibinary_op and unary_op.
   */
  lemma ElementwiseKeepsTail(x: seq<Complex>, y: seq<Complex>, a: Complex, b: Complex,
                             av: seq<Complex>, bv: seq<Complex>, c: Complex,
                             f: (Complex, Complex) -> Complex, g: Complex -> Complex, k: int)
    requires |x| <= k < |y|
    ensures |AxpbySamples(a, x, b, y)| == |y| && AxpbySamples(a, x, b, y)[k] == y[k]
    ensures |Xapyb3Samples(x, a, y, bv)| == |y| && Xapyb3Samples(x, a, y, bv)[k] == y[k]
    ensures Xapyb4Samples(x, av, y, bv).Ok? ==>
      |Xapyb4Samples(x, av, y, bv).value| == |y| && Xapyb4Samples(x, av, y, bv).value[k] == y[k]
    ensures |BinarySamples(x, y, f)| == |y| && BinarySamples(x, y, f)[k] == y[k]
    ensures |SemibinarySamples(x, y, c, f)| == |y| && SemibinarySamples(x, y, c, f)[k] == y[k]
    ensures |UnarySamples(x, y, g)| == |y| && UnarySamples(x, y, g)[k] == y[k]
  {
  }

  // Reductions.

  /** dot(a, b): the sum of conj(b[k])*a[k] over the first n samples. */
  function DotUpTo(a: seq<Complex>, b: seq<Complex>, n: nat): Complex
    requires n <= |a| && n <= |b|
  {
    if n == 0 then Zero else Add(DotUpTo(a, b, n - 1), Mul(Conj(b[n - 1]), a[n - 1]))
  }

  function SumUpTo(a: seq<Complex>, n: nat): Complex
    requires n <= |a|
  {
    if n == 0 then Zero else Add(SumUpTo(a, n - 1), a[n - 1])
  }

  /** The sum of |a[k]|^2 over the first n samples; norm(a) is its square root. */
  function NormSqUpTo(a: seq<Complex>, n: nat): real
    requires n <= |a|
  {
    if n == 0 then 0.0 else NormSqUpTo(a, n - 1) + AbsSq(a[n - 1])
  }

  /**
   * max(a): starting from zero, the first sample whose real part beats the
   * running maximum's. The result has the largest real part, at least zero,
   * and is zero or one of the samples.
   */
  function MaxUpTo(a: seq<Complex>, n: nat): (z: Complex)
    requires n <= |a|
    ensures z.re >= 0.0
    ensures forall k :: 0 <= k < n ==> a[k].re <= z.re
    ensures z == Zero || exists k :: 0 <= k < n && a[k] == z
  {
    if n == 0 then Zero
    else
      var z := MaxUpTo(a, n - 1);
      if a[n - 1].re > z.re then a[n - 1] else z
  }

  method Dot(a: Acquisition, b: Acquisition) returns (z: Complex)
    ensures z == DotUpTo(a.data, b.data, Min(|a.data|, |b.data|))
  {
    z := Zero;
    var k := 0;
    while k < |a.data| && k < |b.data|
      invariant 0 <= k <= |a.data| && k <= |b.data|
      invariant z == DotUpTo(a.data, b.data, k)
    {
      z := Add(z, Mul(Conj(b.data[k]), a.data[k]));
      k := k + 1;
    }
  }

  method Sum(a: Acquisition) returns (z: Complex)
    ensures z == SumUpTo(a.data, |a.data|)
  {
    z := Zero;
    var k := 0;
    while k < |a.data|
      invariant 0 <= k <= |a.data|
      invariant z == SumUpTo(a.data, k)
    {
      z := Add(z, a.data[k]);
      k := k + 1;
    }
  }

  method Max(a: Acquisition) returns (z: Complex)
    ensures z == MaxUpTo(a.data, |a.data|)
  {
    z := Zero;
    var k := 0;
    while k < |a.data|
      invariant 0 <= k <= |a.data|
      invariant z == MaxUpTo(a.data, k)
    {
      if a.data[k].re > z.re {
        z := a.data[k];
      }
      k := k + 1;
    }
  }

  /** The accumulated sum behind norm(a): the real part of conj(a[k])*a[k], summed. */
  method NormSq(a: Acquisition) returns (r: real)
    ensures r == NormSqUpTo(a.data, |a.data|)
  {
    r := 0.0;
    var k := 0;
    while k < |a.data|
      invariant 0 <= k <= |a.data|
      invariant r == NormSqUpTo(a.data, k)
    {
      r := r + Mul(Conj(a.data[k]), a.data[k]).re;
      k := k + 1;
    }
  }

  /** dot(a, a) is the real number norm(a)^2. */
  lemma {:induction false} DotSelf(a: seq<Complex>, n: nat)
    requires n <= |a|
    ensures DotUpTo(a, a, n) == Complex(NormSqUpTo(a, n), 0.0)
  {
    if n > 0 {
      DotSelf(a, n - 1);
      MulConjSelf(a[n - 1]);
    }
  }

  /** dot(a, b) is the conjugate of dot(b, a). */
  lemma {:induction false} DotConjugateSymmetric(a: seq<Complex>, b: seq<Complex>, n: nat)
    requires n <= |a| && n <= |b|
    ensures DotUpTo(a, b, n) == Conj(DotUpTo(b, a, n))
  {
    if n > 0 {
      DotConjugateSymmetric(a, b, n - 1);
      MulConjSwap(a[n - 1], b[n - 1]);
    }
  }

  /** Summing after adding c to every sample adds n copies of c. */
  lemma {:induction false} SumOfShifted(x: seq<Complex>, c: Complex, n: nat)
    requires n <= |x|
    ensures SumUpTo(SemibinarySamples(x, x, c, Add), n)
      == Add(SumUpTo(x, n), Complex(n as real * c.re, n as real * c.im))
  {
    if n > 0 {
      SumOfShifted(x, c, n - 1);
      var s := SemibinarySamples(x, x, c, Add);
      assert s[n - 1] == Add(x[n - 1], c);
      assert SumUpTo(s, n) == Add(SumUpTo(s, n - 1), s[n - 1]);
      assert n as real * c.re == (n - 1) as real * c.re + c.re;
      assert n as real * c.im == (n - 1) as real * c.im + c.im;
    }
  }
}

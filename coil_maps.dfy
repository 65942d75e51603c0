/**
 * Coil-sensitivity estimation: the helper loops of CoilSensitivitiesVector
 * (mask_noise_, max_, max_diff_, smoothen_) and calculate_csm, which crops the
 * coil images, estimates the noise level, masks the object, smooths the maps and
 * divides them by the root sum of squares over the channels.
 *
 * Samples are exact reals and complex pairs of reals. The square root is a
 * parameter `sqrt`; std::abs of a complex sample is sqrt of its squared magnitude.
 */
module CoilMaps {
  import opened Complexes
  import opened Errors
  import opened Grid

  /** fabs. */
  function Fabs(t: real): (r: real)
    ensures 0.0 <= r && (r == t || r == -t)
  {
    if t < 0.0 then -t else t
  }

  /** std::abs of a complex sample. */
  function Magnitude(sqrt: real -> real, a: Complex): real {
    sqrt(AbsSq(a))
  }

  function Sub(a: Complex, b: Complex): Complex {
    Add(a, Neg(b))
  }

  /** A square root without rounding. */
  ghost predicate ExactSqrt(sqrt: real -> real) {
    forall t :: 0.0 <= t ==> 0.0 <= sqrt(t) && sqrt(t) * sqrt(t) == t
  }

  // ------------------------------------------------------------------ mask_noise_

  /** The mask entry of a voxel: 1 when its magnitude exceeds the noise level. */
  function MaskValue(t: real, noise: real): int {
    if Fabs(t) > noise then 1 else 0
  }

  function NoiseMask(u: seq<real>, noise: real): (mask: seq<int>)
    ensures |mask| == |u|
  {
    seq(|u|, i requires 0 <= i < |u| => MaskValue(u[i], noise))
  }

  /** A voxel kept by the mask at some noise level is kept at every lower level. */
  lemma NoiseMaskAntitone(u: seq<real>, low: real, high: real, i: int)
    requires low <= high && 0 <= i < |u|
    ensures NoiseMask(u, high)[i] <= NoiseMask(u, low)[i]
    ensures NoiseMask(u, low)[i] == 0 ==> NoiseMask(u, high)[i] == 0
    ensures NoiseMask(u, high)[i] == 1 <==> Fabs(u[i]) > high
  {
    assert NoiseMask(u, high)[i] == MaskValue(u[i], high);
    assert NoiseMask(u, low)[i] == MaskValue(u[i], low);
  }

  /** mask_noise_: the three loops over z, y and x walk the first nx*ny*nz entries. */
  method MaskNoise(e: Extent, u: array<real>, noise: real, mask: array<int>)
    requires Volume(e) <= u.Length && Volume(e) <= mask.Length
    modifies mask
    ensures mask[..Volume(e)] == NoiseMask(u[..Volume(e)], noise)
    ensures mask[Volume(e)..] == old(mask[Volume(e)..])
  {
    var flat := Extent(e.nx, e.ny, e.nz, 1);
    ghost var n := Volume(e);
    assert Size(flat) == n;
    var i := 0;
    var iz := 0;
    while iz < e.nz
      invariant 0 <= iz <= e.nz
      invariant i == Pos(flat, Voxel(0, 0, iz, 0)) && 0 <= i <= n
      invariant forall p :: 0 <= p < i ==> mask[p] == MaskValue(u[p], noise)
      invariant forall p :: i <= p < mask.Length ==> mask[p] == old(mask[p])
    {
      var iy := 0;
      while iy < e.ny
        invariant 0 <= iy <= e.ny
        invariant i == Pos(flat, Voxel(0, iy, iz, 0)) && 0 <= i <= n
        invariant forall p :: 0 <= p < i ==> mask[p] == MaskValue(u[p], noise)
        invariant forall p :: i <= p < mask.Length ==> mask[p] == old(mask[p])
      {
        var ix := 0;
        while ix < e.nx
          invariant 0 <= ix <= e.nx
          invariant i == Pos(flat, Voxel(ix, iy, iz, 0)) && 0 <= i <= n
          invariant forall p :: 0 <= p < i ==> mask[p] == MaskValue(u[p], noise)
          invariant forall p :: i <= p < mask.Length ==> mask[p] == old(mask[p])
        {
          PosInside(flat, Voxel(ix, iy, iz, 0));
          var t := Fabs(u[i]);
          mask[i] := if t > noise then 1 else 0;
          ix, i := ix + 1, i + 1;
        }
        CarryX(flat, iy, iz, 0);
        if iy + 1 < e.ny && e.nx > 0 {
          PosInside(flat, Voxel(0, iy + 1, iz, 0));
        }
        iy := iy + 1;
      }
      CarryY(flat, iz, 0);
      PosEnd(flat);
      if iz + 1 < e.nz && e.nx > 0 && e.ny > 0 {
        PosInside(flat, Voxel(0, 0, iz + 1, 0));
      }
      iz := iz + 1;
    }
    PosEnd(flat);
    if 0 < e.nx && 0 < e.ny {
      assert i == n;
    } else {
      assert n == 0;
    }
  }

  // ------------------------------------------------------------------ max_

  /** The largest magnitude among the first n entries, and 0 when there are none. */
  function MaxAbs(u: seq<real>, n: nat): real
    requires n <= |u|
  {
    if n == 0 then 0.0
    else
      var r0 := MaxAbs(u, n - 1);
      if Fabs(u[n - 1]) > r0 then Fabs(u[n - 1]) else r0
  }

  /** MaxAbs is the maximum: an upper bound of every magnitude, attained unless it is 0. */
  lemma {:induction false} MaxAbsIsMaximum(u: seq<real>, n: nat)
    requires n <= |u|
    ensures 0.0 <= MaxAbs(u, n)
    ensures forall i :: 0 <= i < n ==> Fabs(u[i]) <= MaxAbs(u, n)
    ensures MaxAbs(u, n) == 0.0 || exists i :: 0 <= i < n && MaxAbs(u, n) == Fabs(u[i])
  {
    if n > 0 {
      MaxAbsIsMaximum(u, n - 1);
      if MaxAbs(u, n - 1) != 0.0 && Fabs(u[n - 1]) <= MaxAbs(u, n - 1) {
        var i :| 0 <= i < n - 1 && MaxAbs(u, n - 1) == Fabs(u[i]);
        assert MaxAbs(u, n) == Fabs(u[i]);
      }
    }
  }

  /** max_: the loops over z, y and x walk the first nx*ny*nz entries. */
  /** The x loop of max_ over row iy of slice iz of a one-channel volume. */
  method MaxRow(flat: Extent, u: array<real>, iy: int, iz: int, i0: int, r0: real) returns (i: int, r: real)
    requires Size(flat) <= u.Length && flat.nc == 1 && 0 <= iy < flat.ny && 0 <= iz < flat.nz
    requires i0 == Pos(flat, Voxel(0, iy, iz, 0)) && 0 <= i0 <= Size(flat) && r0 == MaxAbs(u[..], i0)
    ensures i == Pos(flat, Voxel(flat.nx, iy, iz, 0)) && 0 <= i <= Size(flat)
    ensures r == MaxAbs(u[..], i)
  {
    i, r := i0, r0;
    var ix := 0;
    while ix < flat.nx
      invariant 0 <= ix <= flat.nx
      invariant i == Pos(flat, Voxel(ix, iy, iz, 0)) && 0 <= i <= Size(flat)
      invariant r == MaxAbs(u[..], i)
    {
      PosInside(flat, Voxel(ix, iy, iz, 0));
      var t := Fabs(u[i]);
      if t > r {
        r := t;
      }
      ix, i := ix + 1, i + 1;
    }
  }

  method Max(e: Extent, u: array<real>) returns (r: real)
    requires Volume(e) <= u.Length
    ensures r == MaxAbs(u[..], Volume(e))
  {
    ghost var us := u[..];
    var flat := Extent(e.nx, e.ny, e.nz, 1);
    ghost var n := Volume(e);
    assert Size(flat) == n;
    r := 0.0;
    var i := 0;
    var iz := 0;
    while iz < e.nz
      invariant 0 <= iz <= e.nz
      invariant i == Pos(flat, Voxel(0, 0, iz, 0)) && 0 <= i <= n
      invariant r == MaxAbs(us, i)
    {
      var iy := 0;
      while iy < e.ny
        invariant 0 <= iy <= e.ny
        invariant i == Pos(flat, Voxel(0, iy, iz, 0)) && 0 <= i <= n
        invariant r == MaxAbs(us, i)
      {
        i, r := MaxRow(flat, u, iy, iz, i, r);
        CarryX(flat, iy, iz, 0);
        if iy + 1 < e.ny && e.nx > 0 {
          PosInside(flat, Voxel(0, iy + 1, iz, 0));
        }
        iy := iy + 1;
      }
      CarryY(flat, iz, 0);
      PosEnd(flat);
      if iz + 1 < e.nz && e.nx > 0 && e.ny > 0 {
        PosInside(flat, Voxel(0, 0, iz + 1, 0));
      }
      iz := iz + 1;
    }
    PosEnd(flat);
    if 0 < e.nx && 0 < e.ny {
      assert i == n;
    } else {
      assert n == 0;
    }
  }

  // ------------------------------------------------------------------ max_diff_

  /** The voxels max_diff_ visits: every channel and slice, x and y off the border. */
  predicate Interior(e: Extent, v: Voxel) {
    0 <= v.c < e.nc && 0 <= v.z < e.nz && 1 <= v.y < e.ny - 1 && 1 <= v.x < e.nx - 1
  }

  /** The four in-plane neighbours of an interior voxel lie inside the volume. */
  lemma InteriorNeighbours(e: Extent, v: Voxel)
    requires Interior(e, v)
    ensures 0 <= Pos(e, v) - e.nx && Pos(e, v) + e.nx < Size(e)
    ensures 0 <= Pos(e, v) - 1 && Pos(e, v) + 1 < Size(e)
  {
    PosShift(e, v, 0, -1);
    PosShift(e, v, 0, 1);
    PosInside(e, v.(y := v.y - 1));
    PosInside(e, v.(y := v.y + 1));
  }

  /** The central-difference gradient magnitude of u at an interior voxel. */
  function Gradient(sqrt: real -> real, u: seq<Complex>, e: Extent, v: Voxel): real
    requires |u| == Size(e) && Interior(e, v)
  {
    InteriorNeighbours(e, v);
    var i := Pos(e, v);
    CentralGradient(sqrt, u[i + 1], u[i - 1], u[i + e.nx], u[i - e.nx])
  }

  /** The gradient magnitude from the neighbours at x+1, x-1, y+1 and y-1. */
  function CentralGradient(sqrt: real -> real, right: Complex, left: Complex, up: Complex, down: Complex): real {
    var gx := Magnitude(sqrt, Sub(right, left)) / 2.0;
    var gy := Magnitude(sqrt, Sub(up, down)) / 2.0;
    sqrt(gx * gx + gy * gy)
  }

  /** The magnitude of the difference of u and w at a voxel. */
  function Difference(sqrt: real -> real, u: seq<Complex>, w: seq<Complex>, e: Extent, v: Voxel): real
    requires |u| == Size(e) && |w| == Size(e) && Inside(e, v)
  {
    PosInside(e, v);
    Magnitude(sqrt, Sub(u[Pos(e, v)], w[Pos(e, v)]))
  }

  /** An interior voxel where u changes slowly: only these enter the noise estimate. */
  predicate Quiet(sqrt: real -> real, u: seq<Complex>, e: Extent, small: real, v: Voxel)
    requires |u| == Size(e)
  {
    Interior(e, v) && Gradient(sqrt, u, e, v) <= small
  }

  /**
   * s is what max_diff_ returns: the largest difference of u and w over the quiet
   * voxels, or 0 when that is not positive.
   */
  ghost predicate IsNoiseLevel(s: real, sqrt: real -> real, u: seq<Complex>, w: seq<Complex>, e: Extent, small: real)
    requires |u| == Size(e) && |w| == Size(e)
  {
    && 0.0 <= s
    && (forall v :: Quiet(sqrt, u, e, small, v) ==> Difference(sqrt, u, w, e, v) <= s)
    && (s == 0.0 || exists v :: Quiet(sqrt, u, e, small, v) && Difference(sqrt, u, w, e, v) == s)
  }

  /** There is at most one noise level. */
  lemma NoiseLevelUnique(s: real, t: real, sqrt: real -> real, u: seq<Complex>, w: seq<Complex>, e: Extent, small: real)
    requires |u| == Size(e) && |w| == Size(e)
    requires IsNoiseLevel(s, sqrt, u, w, e, small) && IsNoiseLevel(t, sqrt, u, w, e, small)
    ensures s == t
  {
    if s != 0.0 {
      var v :| Quiet(sqrt, u, e, small, v) && Difference(sqrt, u, w, e, v) == s;
    }
    if t != 0.0 {
      var v :| Quiet(sqrt, u, e, small, v) && Difference(sqrt, u, w, e, v) == t;
    }
  }

  /** max_diff_: the largest |u - w| over interior voxels whose gradient in u is at most small. */
  method MaxDiff(sqrt: real -> real, e: Extent, small: real, u: array<Complex>, w: array<Complex>) returns (s: real)
    requires u.Length == Size(e) && w.Length == Size(e)
    ensures IsNoiseLevel(s, sqrt, u[..], w[..], e, small)
  {
    ghost var us, ws := u[..], w[..];
    s := 0.0;
    ghost var best := Voxel(0, 0, 0, 0);
    var ic := 0;
    while ic < e.nc
      invariant 0 <= ic <= e.nc
      invariant NoiseSoFar(s, best, sqrt, us, ws, e, small, Voxel(1, 1, 0, ic))
    {
      var iz := 0;
      while iz < e.nz
        invariant 0 <= iz <= e.nz
        invariant NoiseSoFar(s, best, sqrt, us, ws, e, small, Voxel(1, 1, iz, ic))
      {
        var iy := 1;
        while iy < e.ny - 1
          invariant 1 <= iy && (1 < e.ny - 1 ==> iy <= e.ny - 1)
          invariant NoiseSoFar(s, best, sqrt, us, ws, e, small, Voxel(1, iy, iz, ic))
        {
          s, best := MaxDiffRow(sqrt, e, small, u, w, iy, iz, ic, s, best);
          iy := iy + 1;
        }
        iz := iz + 1;
      }
      ic := ic + 1;
    }
  }

  /** The x loop of max_diff_ over one row of an interior slice. */
  method MaxDiffRow(sqrt: real -> real, e: Extent, small: real, u: array<Complex>, w: array<Complex>,
                    iy: int, iz: int, ic: int, s0: real, ghost best0: Voxel) returns (s: real, ghost best: Voxel)
    requires u.Length == Size(e) && w.Length == Size(e)
    requires 1 <= iy < e.ny - 1 && 0 <= iz < e.nz && 0 <= ic < e.nc
    requires NoiseSoFar(s0, best0, sqrt, u[..], w[..], e, small, Voxel(1, iy, iz, ic))
    ensures NoiseSoFar(s, best, sqrt, u[..], w[..], e, small, Voxel(1, iy + 1, iz, ic))
  {
    s, best := s0, best0;
    var ix := 1;
    while ix < e.nx - 1
      invariant 1 <= ix && (1 < e.nx - 1 ==> ix <= e.nx - 1)
      invariant NoiseSoFar(s, best, sqrt, u[..], w[..], e, small, Voxel(ix, iy, iz, ic))
    {
      s, best := MaxDiffVoxel(sqrt, e, small, u, w, ix, iy, iz, ic, s, best);
      ix := ix + 1;
    }
  }

  /** The body of the x loop of max_diff_ at one interior voxel. */
  method MaxDiffVoxel(sqrt: real -> real, e: Extent, small: real, u: array<Complex>, w: array<Complex>,
                      ix: int, iy: int, iz: int, ic: int, s0: real, ghost best0: Voxel) returns (s: real, ghost best: Voxel)
    requires u.Length == Size(e) && w.Length == Size(e)
    requires 1 <= ix < e.nx - 1 && 1 <= iy < e.ny - 1 && 0 <= iz < e.nz && 0 <= ic < e.nc
    requires NoiseSoFar(s0, best0, sqrt, u[..], w[..], e, small, Voxel(ix, iy, iz, ic))
    ensures NoiseSoFar(s, best, sqrt, u[..], w[..], e, small, Voxel(ix + 1, iy, iz, ic))
  {
    ghost var us, ws := u[..], w[..];
    ghost var v := Voxel(ix, iy, iz, ic);
    var nxy := e.nx * e.ny;
    var nxyz := nxy * e.nz;
    var i := ix + e.nx * iy + nxy * iz + nxyz * ic;
    PosExpanded(e, v);
    InteriorNeighbours(e, v);
    var g := CentralGradient(sqrt, u[i + 1], u[i - 1], u[i + e.nx], u[i - e.nx]);
    var si := Magnitude(sqrt, Sub(u[i], w[i]));
    assert g == Gradient(sqrt, us, e, v);
    assert si == Difference(sqrt, us, ws, e, v);
    s, best := s0, best0;
    if g <= small && si > s {
      s := si;
      best := v;
    }
  }

  /** The noise estimate over the quiet voxels visited before cur, with best a witness when it is positive. */
  ghost predicate NoiseSoFar(s: real, best: Voxel, sqrt: real -> real, u: seq<Complex>, w: seq<Complex>, e: Extent, small: real, cur: Voxel)
    requires |u| == Size(e) && |w| == Size(e)
  {
    && 0.0 <= s
    && (forall v :: Quiet(sqrt, u, e, small, v) && Before(v, cur) ==> Difference(sqrt, u, w, e, v) <= s)
    && (s == 0.0 || (Quiet(sqrt, u, e, small, best) && Difference(sqrt, u, w, e, best) == s))
  }

  // ------------------------------------------------------------------ smoothen_

  /** The neighbour count and the sum of the neighbours' samples. */
  datatype Acc = Acc(n: nat, s: Complex)

  function Plus(a: Acc, b: Acc): Acc {
    Acc(a.n + b.n, Add(a.s, b.s))
  }

  /** The arguments of a smoothing pass: the samples and the optional object mask. */
  predicate Shaped(u: seq<Complex>, mask: Option<seq<int>>, e: Extent) {
    |u| == Size(e) && (mask.Some? ==> |mask.value| == Volume(e))
  }

  /**
   * What the window offset (jx, jy) adds at voxel v: nothing when it leaves the
   * plane, when it is v itself or when the mask excludes it; otherwise one
   * neighbour and its sample.
   */
  function Contribution(u: seq<Complex>, mask: Option<seq<int>>, e: Extent, v: Voxel, jx: int, jy: int): Acc
    requires Shaped(u, mask, e) && Inside(e, v)
  {
    if v.x + jx < 0 || v.x + jx >= e.nx then Acc(0, Zero)
    else if v.y + jy < 0 || v.y + jy >= e.ny then Acc(0, Zero)
    else
      PosShift(e, v, jx, jy);
      PosInside(e, v.(x := v.x + jx, y := v.y + jy));
      var i := Pos(e, v);
      var j := i + jx + jy * e.nx;
      var l := Spatial(e, v) + jx + jy * e.nx;
      if i != j && (mask.None? || mask.value[l] != 0) then Acc(1, u[j]) else Acc(0, Zero)
  }

  /** The contributions of the first m offsets of window row jy, from jx = -w on. */
  function RowAcc(u: seq<Complex>, mask: Option<seq<int>>, e: Extent, v: Voxel, w: nat, jy: int, m: nat): Acc
    requires Shaped(u, mask, e) && Inside(e, v)
  {
    if m == 0 then Acc(0, Zero)
    else Plus(RowAcc(u, mask, e, v, w, jy, m - 1), Contribution(u, mask, e, v, (m - 1) as int - w, jy))
  }

  /** The contributions of the first m rows of the window, from jy = -w on. */
  function WindowAcc(u: seq<Complex>, mask: Option<seq<int>>, e: Extent, v: Voxel, w: nat, m: nat): Acc
    requires Shaped(u, mask, e) && Inside(e, v)
  {
    if m == 0 then Acc(0, Zero)
    else Plus(WindowAcc(u, mask, e, v, w, m - 1), RowAcc(u, mask, e, v, w, (m - 1) as int - w, 2 * w + 1))
  }

  /**
   * (u + s/r)/2 with r = n*(1, 0): the sample averaged with the mean of its n
   * neighbours, whose sum is s.
   */
  function Average(ui: Complex, s: Complex, n: nat): Complex
    requires n > 0
  {
    Complex((ui.re + s.re / n as real) / 2.0, (ui.im + s.im / n as real) / 2.0)
  }

  /** The new sample of voxel v after one smoothing pass with window half-width w. */
  function SmoothAt(u: seq<Complex>, mask: Option<seq<int>>, e: Extent, w: nat, v: Voxel): Complex
    requires Shaped(u, mask, e) && Inside(e, v)
  {
    PosInside(e, v);
    var i := Pos(e, v);
    if mask.Some? && mask.value[Spatial(e, v)] == 0 then u[i]
    else
      var a := WindowAcc(u, mask, e, v, w, 2 * w + 1);
      if a.n > 0 then Average(u[i], a.s, a.n) else u[i]
  }

  /** One smoothing pass over the whole array. */
  function Smoothed(u: seq<Complex>, mask: Option<seq<int>>, e: Extent, w: nat): (r: seq<Complex>)
    requires Shaped(u, mask, e)
    ensures |r| == |u|
  {
    seq(|u|, p requires 0 <= p < |u| => SmoothAtPos(u, mask, e, w, p))
  }

  function SmoothAtPos(u: seq<Complex>, mask: Option<seq<int>>, e: Extent, w: nat, p: int): Complex
    requires Shaped(u, mask, e) && 0 <= p < Size(e)
  {
    DecodeInside(e, p);
    SmoothAt(u, mask, e, w, Decode(e, p))
  }

  /** The pass read at a voxel. */
  lemma SmoothedAt(u: seq<Complex>, mask: Option<seq<int>>, e: Extent, w: nat, v: Voxel)
    requires Shaped(u, mask, e) && Inside(e, v)
    ensures 0 <= Pos(e, v) < |u| && Smoothed(u, mask, e, w)[Pos(e, v)] == SmoothAt(u, mask, e, w, v)
  {
    DecodePos(e, v);
  }

  /** The neighbour loops of smoothen_ for the voxel at (ix, iy), flat position i and mask position k. */
  method Neighbours(e: Extent, u: array<Complex>, mask: array?<int>, w: nat, ix: int, iy: int, i: int, k: int,
                    ghost us: seq<Complex>, ghost m: Option<seq<int>>, ghost v: Voxel) returns (n: nat, s: Complex)
    requires u.Length == Size(e) && us == u[..] && Shaped(us, m, e)
    requires mask == null <==> m.None?
    requires mask != null ==> mask.Length == Volume(e) && m.value == mask[..]
    requires Inside(e, v) && v.x == ix && v.y == iy && i == Pos(e, v) && k == Spatial(e, v)
    ensures Acc(n, s) == WindowAcc(us, m, e, v, w, 2 * w + 1)
  {
    n, s := 0, Zero;
    var j: nat := 0;
    while j < 2 * w + 1
      invariant j <= 2 * w + 1
      invariant Acc(n, s) == WindowAcc(us, m, e, v, w, j)
    {
      n, s := NeighbourRow(e, u, mask, w, ix, iy, i, k, j as int - w, n, s, us, m, v);
      j := j + 1;
    }
  }

  /** The inner loop over jx of one window row jy, adding to the count n0 and the sum s0. */
  method NeighbourRow(e: Extent, u: array<Complex>, mask: array?<int>, w: nat, ix: int, iy: int, i: int, k: int,
                      jy: int, n0: nat, s0: Complex,
                      ghost us: seq<Complex>, ghost m: Option<seq<int>>, ghost v: Voxel) returns (n: nat, s: Complex)
    requires u.Length == Size(e) && us == u[..] && Shaped(us, m, e)
    requires mask == null <==> m.None?
    requires mask != null ==> mask.Length == Volume(e) && m.value == mask[..]
    requires Inside(e, v) && v.x == ix && v.y == iy && i == Pos(e, v) && k == Spatial(e, v)
    ensures Acc(n, s) == Plus(Acc(n0, s0), RowAcc(us, m, e, v, w, jy, 2 * w + 1))
  {
    n, s := n0, s0;
    var j: nat := 0;
    while j < 2 * w + 1
      invariant j <= 2 * w + 1
      invariant Acc(n, s) == Plus(Acc(n0, s0), RowAcc(us, m, e, v, w, jy, j))
    {
      var c := NeighbourAt(e, u, mask, ix, iy, i, k, j as int - w, jy, us, m, v);
      RowAccStep(us, m, e, v, w, jy, j, c, Acc(n0, s0), Acc(n, s));
      n, s := n + c.n, Add(s, c.s);
      j := j + 1;
    }
  }

  /** One more offset of a window row, added to a running total. */
  lemma RowAccStep(u: seq<Complex>, mask: Option<seq<int>>, e: Extent, v: Voxel, w: nat, jy: int, j: nat, c: Acc, a0: Acc, a: Acc)
    requires Shaped(u, mask, e) && Inside(e, v)
    requires c == Contribution(u, mask, e, v, j as int - w, jy)
    requires a == Plus(a0, RowAcc(u, mask, e, v, w, jy, j))
    ensures Plus(a, c) == Plus(a0, RowAcc(u, mask, e, v, w, jy, j + 1))
  {
  }

  /** The body of the inner loop at offset (jx, jy): what that neighbour adds, if anything. */
  method NeighbourAt(e: Extent, u: array<Complex>, mask: array?<int>, ix: int, iy: int, i: int, k: int,
                     jx: int, jy: int, ghost us: seq<Complex>, ghost m: Option<seq<int>>, ghost v: Voxel) returns (c: Acc)
    requires u.Length == Size(e) && us == u[..] && Shaped(us, m, e)
    requires mask == null <==> m.None?
    requires mask != null ==> mask.Length == Volume(e) && m.value == mask[..]
    requires Inside(e, v) && v.x == ix && v.y == iy && i == Pos(e, v) && k == Spatial(e, v)
    ensures c == Contribution(us, m, e, v, jx, jy)
  {
    c := Acc(0, Zero);
    if ix + jx < 0 || ix + jx >= e.nx {
    } else if iy + jy < 0 || iy + jy >= e.ny {
    } else {
      PosShift(e, v, jx, jy);
      PosInside(e, v.(x := v.x + jx, y := v.y + jy));
      var j := i + jx + jy * e.nx;
      var l := k + jx + jy * e.nx;
      if i != j && (mask == null || mask[l] != 0) {
        c := Acc(1, u[j]);
      }
    }
  }

  /** The mask argument of smoothen_: a null obj_mask means no mask. */
  function MaskOf(mask: array?<int>): Option<seq<int>>
    reads mask
  {
    if mask == null then None else Some(mask[..])
  }

  /** Every voxel visited before cur holds its smoothed sample in vs. */
  ghost predicate SmoothedBefore(vs: seq<Complex>, us: seq<Complex>, m: Option<seq<int>>, e: Extent, w: nat, cur: Voxel)
    requires Shaped(us, m, e)
  {
    forall vox :: Inside(e, vox) && Before(vox, cur) ==>
      0 <= Pos(e, vox) < |vs| && vs[Pos(e, vox)] == SmoothAt(us, m, e, w, vox)
  }

  /** Storing the smoothed sample of the current voxel moves the visited part on by one voxel. */
  lemma SmoothedStep(vs: seq<Complex>, us: seq<Complex>, m: Option<seq<int>>, e: Extent, w: nat, vox: Voxel, r: Complex)
    requires Shaped(us, m, e) && |vs| == Size(e) && Inside(e, vox)
    requires SmoothedBefore(vs, us, m, e, w, vox) && r == SmoothAt(us, m, e, w, vox)
    ensures 0 <= Pos(e, vox) < |vs|
    ensures SmoothedBefore(vs[Pos(e, vox) := r], us, m, e, w, vox.(x := vox.x + 1))
  {
    PosInside(e, vox);
    forall other | Inside(e, other) && Before(other, vox) ensures Pos(e, other) < Pos(e, vox) {
      BeforePosLess(e, other, vox);
    }
  }

  /** After the last channel every sample is the smoothed one. */
  lemma AllSmoothed(vs: seq<Complex>, us: seq<Complex>, m: Option<seq<int>>, e: Extent, w: nat)
    requires Shaped(us, m, e) && |vs| == Size(e)
    requires SmoothedBefore(vs, us, m, e, w, Voxel(0, 0, 0, e.nc))
    ensures vs == Smoothed(us, m, e, w)
  {
    forall p | 0 <= p < Size(e) ensures vs[p] == Smoothed(us, m, e, w)[p] {
      DecodeInside(e, p);
      assert Before(Decode(e, p), Voxel(0, 0, 0, e.nc));
    }
  }

  /**
   * smoothen_: each sample of u is replaced by its smoothed value, computed into v
   * from the unchanged u and then copied back.
   */
  method Smoothen(e: Extent, u: array<Complex>, v: array<Complex>, mask: array?<int>, w: nat)
    requires u != v && u.Length == Size(e) && v.Length == Size(e)
    requires mask != null ==> mask.Length == Volume(e)
    modifies u, v
    ensures u[..] == Smoothed(old(u[..]), MaskOf(mask), e, w)
    ensures v[..] == u[..]
  {
    ghost var us := u[..];
    ghost var m := MaskOf(mask);
    var i := 0;
    var ic := 0;
    while ic < e.nc
      invariant 0 <= ic <= e.nc
      invariant i == Pos(e, Voxel(0, 0, 0, ic))
      invariant u[..] == us
      invariant SmoothedBefore(v[..], us, m, e, w, Voxel(0, 0, 0, ic))
    {
      i := SmoothChannel(e, u, v, mask, w, ic, i, us, m);
      CarryZ(e, ic);
      ic := ic + 1;
    }
    AllSmoothed(v[..], us, m, e, w);
    forall p | 0 <= p < Size(e) {
      u[p] := v[p];
    }
  }

  /** The z loop of smoothen_ over channel ic, from flat position i0. */
  method SmoothChannel(e: Extent, u: array<Complex>, v: array<Complex>, mask: array?<int>, w: nat, ic: int, i0: int,
                       ghost us: seq<Complex>, ghost m: Option<seq<int>>) returns (i: int)
    requires u != v && u.Length == Size(e) && v.Length == Size(e) && us == u[..] && Shaped(us, m, e)
    requires mask == null <==> m.None?
    requires mask != null ==> mask.Length == Volume(e) && m.value == mask[..]
    requires 0 <= ic < e.nc && i0 == Pos(e, Voxel(0, 0, 0, ic))
    requires SmoothedBefore(v[..], us, m, e, w, Voxel(0, 0, 0, ic))
    modifies v
    ensures i == Pos(e, Voxel(0, 0, e.nz, ic))
    ensures SmoothedBefore(v[..], us, m, e, w, Voxel(0, 0, e.nz, ic))
  {
    i := i0;
    var k := 0;
    var iz := 0;
    while iz < e.nz
      invariant 0 <= iz <= e.nz
      invariant i == Pos(e, Voxel(0, 0, iz, ic)) && k == Spatial(e, Voxel(0, 0, iz, ic))
      invariant SmoothedBefore(v[..], us, m, e, w, Voxel(0, 0, iz, ic))
    {
      i, k := SmoothSlice(e, u, v, mask, w, iz, ic, i, k, us, m);
      CarryY(e, iz, ic);
      CarryY(e, iz, 0);
      iz := iz + 1;
    }
  }

  /** The y loop of smoothen_ over slice iz of channel ic, from flat position i0 and mask position k0. */
  method SmoothSlice(e: Extent, u: array<Complex>, v: array<Complex>, mask: array?<int>, w: nat, iz: int, ic: int, i0: int, k0: int,
                     ghost us: seq<Complex>, ghost m: Option<seq<int>>) returns (i: int, k: int)
    requires u != v && u.Length == Size(e) && v.Length == Size(e) && us == u[..] && Shaped(us, m, e)
    requires mask == null <==> m.None?
    requires mask != null ==> mask.Length == Volume(e) && m.value == mask[..]
    requires 0 <= iz < e.nz && 0 <= ic < e.nc
    requires i0 == Pos(e, Voxel(0, 0, iz, ic)) && k0 == Spatial(e, Voxel(0, 0, iz, ic))
    requires SmoothedBefore(v[..], us, m, e, w, Voxel(0, 0, iz, ic))
    modifies v
    ensures i == Pos(e, Voxel(0, e.ny, iz, ic)) && k == Spatial(e, Voxel(0, e.ny, iz, ic))
    ensures SmoothedBefore(v[..], us, m, e, w, Voxel(0, e.ny, iz, ic))
  {
    i, k := i0, k0;
    var iy := 0;
    while iy < e.ny
      invariant 0 <= iy <= e.ny
      invariant i == Pos(e, Voxel(0, iy, iz, ic)) && k == Spatial(e, Voxel(0, iy, iz, ic))
      invariant SmoothedBefore(v[..], us, m, e, w, Voxel(0, iy, iz, ic))
    {
      i, k := SmoothRow(e, u, v, mask, w, iy, i, k, us, m, Voxel(0, iy, iz, ic));
      CarryX(e, iy, iz, ic);
      CarryX(e, iy, iz, 0);
      iy := iy + 1;
    }
  }

  /** The x loop of smoothen_ over one row, from flat position i0 and mask position k0. */
  method SmoothRow(e: Extent, u: array<Complex>, v: array<Complex>, mask: array?<int>, w: nat, iy: int, i0: int, k0: int,
                   ghost us: seq<Complex>, ghost m: Option<seq<int>>, ghost row: Voxel) returns (i: int, k: int)
    requires u != v && u.Length == Size(e) && v.Length == Size(e) && us == u[..] && Shaped(us, m, e)
    requires mask == null <==> m.None?
    requires mask != null ==> mask.Length == Volume(e) && m.value == mask[..]
    requires row.x == 0 && row.y == iy && 0 <= iy < e.ny && 0 <= row.z < e.nz && 0 <= row.c < e.nc
    requires i0 == Pos(e, row) && k0 == Spatial(e, row)
    requires SmoothedBefore(v[..], us, m, e, w, row)
    modifies v
    ensures i == Pos(e, row.(x := e.nx)) && k == Spatial(e, row.(x := e.nx))
    ensures SmoothedBefore(v[..], us, m, e, w, row.(x := e.nx))
  {
    i, k := i0, k0;
    var ix := 0;
    while ix < e.nx
      invariant 0 <= ix <= e.nx
      invariant i == i0 + ix && k == k0 + ix
      invariant SmoothedBefore(v[..], us, m, e, w, row.(x := ix))
    {
      ghost var vox := row.(x := ix);
      PosShift(e, row, ix, 0);
      assert vox == row.(x := row.x + ix, y := row.y + 0);
      PosInside(e, vox);
      var r := SmoothVoxel(e, u, mask, w, ix, iy, i, k, us, m, vox);
      SmoothedStep(v[..], us, m, e, w, vox, r);
      v[i] := r;
      ix, i, k := ix + 1, i + 1, k + 1;
    }
    PosShift(e, row, e.nx, 0);
    assert row.(x := e.nx) == row.(x := row.x + e.nx, y := row.y + 0);
  }

  /** The body of the x loop of smoothen_: the new sample of one voxel. */
  method SmoothVoxel(e: Extent, u: array<Complex>, mask: array?<int>, w: nat, ix: int, iy: int, i: int, k: int,
                     ghost us: seq<Complex>, ghost m: Option<seq<int>>, ghost vox: Voxel) returns (r: Complex)
    requires u.Length == Size(e) && us == u[..] && Shaped(us, m, e)
    requires mask == null <==> m.None?
    requires mask != null ==> mask.Length == Volume(e) && m.value == mask[..]
    requires Inside(e, vox) && vox.x == ix && vox.y == iy && i == Pos(e, vox) && k == Spatial(e, vox)
    ensures r == SmoothAt(us, m, e, w, vox)
  {
    PosInside(e, vox);
    if mask != null && mask[k] == 0 {
      r := u[i];
    } else {
      var n, s := Neighbours(e, u, mask, w, ix, iy, i, k, us, m, vox);
      if n > 0 {
        r := Average(u[i], s, n);
      } else {
        r := u[i];
      }
    }
  }

  /** n copies of c added up. */
  function Times(n: nat, c: Complex): Complex {
    Complex(n as real * c.re, n as real * c.im)
  }

  lemma ContributionConstant(u: seq<Complex>, mask: Option<seq<int>>, e: Extent, v: Voxel, jx: int, jy: int, c: Complex)
    requires Shaped(u, mask, e) && Inside(e, v)
    requires forall p :: 0 <= p < |u| ==> u[p] == c
    ensures Contribution(u, mask, e, v, jx, jy).s == Times(Contribution(u, mask, e, v, jx, jy).n, c)
  {
    if v.x + jx < 0 || v.x + jx >= e.nx || v.y + jy < 0 || v.y + jy >= e.ny {
    } else {
      PosShift(e, v, jx, jy);
      PosInside(e, v.(x := v.x + jx, y := v.y + jy));
      var j := Pos(e, v) + jx + jy * e.nx;
      assert u[j] == c;
    }
  }

  lemma PlusTimes(a: Acc, b: Acc, c: Complex)
    requires a.s == Times(a.n, c) && b.s == Times(b.n, c)
    ensures Plus(a, b).s == Times(Plus(a, b).n, c)
  {
    assert (a.n + b.n) as real * c.re == a.n as real * c.re + b.n as real * c.re;
    assert (a.n + b.n) as real * c.im == a.n as real * c.im + b.n as real * c.im;
  }

  lemma {:induction false} RowAccConstant(u: seq<Complex>, mask: Option<seq<int>>, e: Extent, v: Voxel, w: nat, jy: int, m: nat, c: Complex)
    requires Shaped(u, mask, e) && Inside(e, v)
    requires forall p :: 0 <= p < |u| ==> u[p] == c
    ensures RowAcc(u, mask, e, v, w, jy, m).s == Times(RowAcc(u, mask, e, v, w, jy, m).n, c)
  {
    if m > 0 {
      RowAccConstant(u, mask, e, v, w, jy, m - 1, c);
      ContributionConstant(u, mask, e, v, (m - 1) as int - w, jy, c);
      PlusTimes(RowAcc(u, mask, e, v, w, jy, m - 1), Contribution(u, mask, e, v, (m - 1) as int - w, jy), c);
    }
  }

  lemma {:induction false} WindowAccConstant(u: seq<Complex>, mask: Option<seq<int>>, e: Extent, v: Voxel, w: nat, m: nat, c: Complex)
    requires Shaped(u, mask, e) && Inside(e, v)
    requires forall p :: 0 <= p < |u| ==> u[p] == c
    ensures WindowAcc(u, mask, e, v, w, m).s == Times(WindowAcc(u, mask, e, v, w, m).n, c)
  {
    if m > 0 {
      WindowAccConstant(u, mask, e, v, w, m - 1, c);
      RowAccConstant(u, mask, e, v, w, (m - 1) as int - w, 2 * w + 1, c);
      PlusTimes(WindowAcc(u, mask, e, v, w, m - 1), RowAcc(u, mask, e, v, w, (m - 1) as int - w, 2 * w + 1), c);
    }
  }

  /** A constant image is left as it is by a smoothing pass, with or without a mask. */
  lemma SmoothKeepsConstant(u: seq<Complex>, mask: Option<seq<int>>, e: Extent, w: nat, c: Complex)
    requires Shaped(u, mask, e)
    requires forall p :: 0 <= p < |u| ==> u[p] == c
    ensures Smoothed(u, mask, e, w) == u
  {
    forall p | 0 <= p < |u| ensures Smoothed(u, mask, e, w)[p] == c {
      DecodeInside(e, p);
      SmoothAtConstant(u, mask, e, w, Decode(e, p), c);
      assert Smoothed(u, mask, e, w)[p] == SmoothAtPos(u, mask, e, w, p);
    }
  }

  lemma SmoothAtConstant(u: seq<Complex>, mask: Option<seq<int>>, e: Extent, w: nat, v: Voxel, c: Complex)
    requires Shaped(u, mask, e) && Inside(e, v)
    requires forall p :: 0 <= p < |u| ==> u[p] == c
    ensures SmoothAt(u, mask, e, w, v) == c
  {
    PosInside(e, v);
    assert u[Pos(e, v)] == c;
    WindowAccConstant(u, mask, e, v, w, 2 * w + 1, c);
    var a := WindowAcc(u, mask, e, v, w, 2 * w + 1);
    if a.n > 0 {
      AverageOfEqual(c, a.n);
    }
  }

  /** A sample averaged with the mean of n copies of itself is unchanged. */
  lemma AverageOfEqual(c: Complex, n: nat)
    requires n > 0
    ensures Average(c, Times(n, c), n) == c
  {
    var k := n as real;
    assert k * c.re / k == c.re;
    assert k * c.im / k == c.im;
  }

  /** A voxel outside the object mask keeps its sample. */
  lemma SmoothKeepsMasked(u: seq<Complex>, mask: seq<int>, e: Extent, w: nat, v: Voxel)
    requires Shaped(u, Some(mask), e) && Inside(e, v)
    requires 0 <= Spatial(e, v) < |mask| && mask[Spatial(e, v)] == 0
    ensures 0 <= Pos(e, v) < |u| && Smoothed(u, Some(mask), e, w)[Pos(e, v)] == u[Pos(e, v)]
  {
    SmoothedAt(u, Some(mask), e, w, v);
  }

  /** An unmasked voxel with neighbours is averaged with their mean; one without keeps its sample. */
  lemma SmoothAveragesNeighbours(u: seq<Complex>, mask: Option<seq<int>>, e: Extent, w: nat, v: Voxel)
    requires Shaped(u, mask, e) && Inside(e, v)
    requires mask.Some? ==> 0 <= Spatial(e, v) < |mask.value| && mask.value[Spatial(e, v)] != 0
    ensures 0 <= Pos(e, v) < |u|
    ensures var a := WindowAcc(u, mask, e, v, w, 2 * w + 1);
      Smoothed(u, mask, e, w)[Pos(e, v)] == if a.n > 0 then Average(u[Pos(e, v)], a.s, a.n) else u[Pos(e, v)]
  {
    SmoothedAt(u, mask, e, w, v);
    PosInside(e, v);
  }

  // ------------------------------------------------------------------ root sum of squares

  /** The extent of a one-channel array over the same volume. */
  function OneChannel(e: Extent): Extent {
    e.(nc := 1)
  }

  /** The samples of voxel position v, one per channel. */
  function Channels(u: seq<Complex>, e: Extent, v: Voxel): (cs: seq<Complex>)
    requires |u| == Size(e) && InPlane(e, v)
    ensures |cs| == e.nc
  {
    seq(e.nc, c requires 0 <= c < e.nc => ChannelAt(u, e, v, c))
  }

  function ChannelAt(u: seq<Complex>, e: Extent, v: Voxel, c: int): Complex
    requires |u| == Size(e) && InPlane(e, v) && 0 <= c < e.nc
  {
    PosInside(e, v.(c := c));
    u[Pos(e, v.(c := c))]
  }

  /** The squared magnitudes of the samples, added in order. */
  function SumSquares(sqrt: real -> real, cs: seq<Complex>): real {
    if |cs| == 0 then 0.0
    else
      var s := Magnitude(sqrt, cs[|cs| - 1]);
      SumSquares(sqrt, cs[..|cs| - 1]) + s * s
  }

  /** The root-sum-of-squares image of u, one sample per voxel. */
  function RootSumSquares(sqrt: real -> real, u: seq<Complex>, e: Extent): (r: seq<real>)
    requires |u| == Size(e)
    ensures |r| == Volume(e)
  {
    assert Size(OneChannel(e)) == Volume(e);
    seq(Volume(e), k requires 0 <= k < Volume(e) => RootSumSquaresAtPos(sqrt, u, e, k))
  }

  function RootSumSquaresAtPos(sqrt: real -> real, u: seq<Complex>, e: Extent, k: int): real
    requires |u| == Size(e) && 0 <= k < Volume(e)
  {
    assert Size(OneChannel(e)) == Volume(e);
    DecodeInside(OneChannel(e), k);
    sqrt(SumSquares(sqrt, Channels(u, e, Decode(OneChannel(e), k))))
  }

  /** The root-sum-of-squares image read at a voxel. */
  lemma RootSumSquaresAt(sqrt: real -> real, u: seq<Complex>, e: Extent, v: Voxel)
    requires |u| == Size(e) && InPlane(e, v)
    ensures 0 <= Spatial(e, v) < Volume(e)
    ensures RootSumSquares(sqrt, u, e)[Spatial(e, v)] == sqrt(SumSquares(sqrt, Channels(u, e, v)))
  {
    var f := OneChannel(e);
    assert Size(f) == Volume(e);
    assert Inside(f, v);
    DecodePos(f, v);
    assert Pos(f, v) == Spatial(e, v);
  }

  /** The channel loop: the sum of squared magnitudes of the samples of voxel (x, y, z). */
  method ChannelSumSquares(sqrt: real -> real, e: Extent, u: array<Complex>, x: int, y: int, z: int) returns (r: real)
    requires u.Length == Size(e) && InPlane(e, Voxel(x, y, z, 0))
    ensures r == SumSquares(sqrt, Channels(u[..], e, Voxel(x, y, z, 0)))
  {
    ghost var cs := Channels(u[..], e, Voxel(x, y, z, 0));
    r := 0.0;
    var c := 0;
    while c < e.nc
      invariant 0 <= c <= e.nc
      invariant r == SumSquares(sqrt, cs[..c])
    {
      ChannelStep(sqrt, u[..], e, x, y, z, c);
      var s := Magnitude(sqrt, u[Pos(e, Voxel(x, y, z, c))]);
      r := r + s * s;
      c := c + 1;
    }
    assert cs[..e.nc] == cs;
  }

  /** One more channel adds the squared magnitude of its sample to the sum. */
  lemma ChannelStep(sqrt: real -> real, u: seq<Complex>, e: Extent, x: int, y: int, z: int, c: int)
    requires |u| == Size(e) && InPlane(e, Voxel(x, y, z, 0)) && 0 <= c < e.nc
    ensures 0 <= Pos(e, Voxel(x, y, z, c)) < |u|
    ensures var s := Magnitude(sqrt, u[Pos(e, Voxel(x, y, z, c))]);
      var cs := Channels(u, e, Voxel(x, y, z, 0));
      SumSquares(sqrt, cs[..c + 1]) == SumSquares(sqrt, cs[..c]) + s * s
  {
    var v := Voxel(x, y, z, 0);
    var cs := Channels(u, e, v);
    PosInside(e, v.(c := c));
    assert cs[c] == u[Pos(e, Voxel(x, y, z, c))];
    SumSquaresSnoc(sqrt, cs, c);
  }

  lemma SumSquaresSnoc(sqrt: real -> real, cs: seq<Complex>, c: int)
    requires 0 <= c < |cs|
    ensures var s := Magnitude(sqrt, cs[c]); SumSquares(sqrt, cs[..c + 1]) == SumSquares(sqrt, cs[..c]) + s * s
  {
    assert cs[..c + 1][..c] == cs[..c];
  }

  /** Every voxel visited before cur holds its root sum of squares in the image. */
  ghost predicate CombinedBefore(im: seq<real>, sqrt: real -> real, u: seq<Complex>, e: Extent, cur: Voxel)
    requires |u| == Size(e)
  {
    forall v :: InPlane(e, v) && Before(v, cur) ==>
      0 <= Spatial(e, v) < |im| && im[Spatial(e, v)] == sqrt(SumSquares(sqrt, Channels(u, e, v)))
  }

  /**
   * The loop of calculate_csm that fills img: voxel (x, y, z) gets the square root
   * of the sum over the channels of the squared magnitudes of u.
   */
  method CombineChannels(sqrt: real -> real, e: Extent, u: array<Complex>, img: array<real>)
    requires u.Length == Size(e) && Volume(e) <= img.Length
    modifies img
    ensures img[..Volume(e)] == RootSumSquares(sqrt, u[..], e)
    ensures img[Volume(e)..] == old(img[Volume(e)..])
  {
    ghost var us := u[..];
    var z := 0;
    while z < e.nz
      invariant 0 <= z <= e.nz
      invariant CombinedBefore(img[..], sqrt, us, e, Voxel(0, 0, z, 0))
      invariant img[Volume(e)..] == old(img[Volume(e)..])
    {
      CombineSlice(sqrt, e, u, img, z);
      z := z + 1;
    }
    CombinedAll(img[..], sqrt, us, e);
  }

  /** The y loop of the image fill over slice z. */
  method CombineSlice(sqrt: real -> real, e: Extent, u: array<Complex>, img: array<real>, z: int)
    requires u.Length == Size(e) && Volume(e) <= img.Length && 0 <= z < e.nz
    requires CombinedBefore(img[..], sqrt, u[..], e, Voxel(0, 0, z, 0))
    modifies img
    ensures CombinedBefore(img[..], sqrt, u[..], e, Voxel(0, 0, z + 1, 0))
    ensures img[Volume(e)..] == old(img[Volume(e)..])
  {
    var y := 0;
    while y < e.ny
      invariant 0 <= y <= e.ny
      invariant CombinedBefore(img[..], sqrt, u[..], e, Voxel(0, y, z, 0))
      invariant img[Volume(e)..] == old(img[Volume(e)..])
    {
      CombineRow(sqrt, e, u, img, y, z);
      y := y + 1;
    }
  }

  /** Once every slice is filled, the image holds the root sum of squares. */
  lemma CombinedAll(im: seq<real>, sqrt: real -> real, u: seq<Complex>, e: Extent)
    requires |u| == Size(e) && Volume(e) <= |im|
    requires CombinedBefore(im, sqrt, u, e, Voxel(0, 0, e.nz, 0))
    ensures im[..Volume(e)] == RootSumSquares(sqrt, u, e)
  {
    forall k | 0 <= k < Volume(e) ensures im[k] == RootSumSquares(sqrt, u, e)[k] {
      CombinedAt(im, sqrt, u, e, k);
    }
  }

  lemma CombinedAt(im: seq<real>, sqrt: real -> real, u: seq<Complex>, e: Extent, k: int)
    requires |u| == Size(e) && Volume(e) <= |im| && 0 <= k < Volume(e)
    requires CombinedBefore(im, sqrt, u, e, Voxel(0, 0, e.nz, 0))
    ensures im[k] == RootSumSquares(sqrt, u, e)[k]
  {
    var f := OneChannel(e);
    assert Size(f) == Volume(e);
    DecodeInside(f, k);
    var v := Decode(f, k);
    assert Before(v, Voxel(0, 0, e.nz, 0));
    RootSumSquaresAt(sqrt, u, e, v);
  }

  /** The x loop of the image fill over row y of slice z. */
  method CombineRow(sqrt: real -> real, e: Extent, u: array<Complex>, img: array<real>, y: int, z: int)
    requires u.Length == Size(e) && Volume(e) <= img.Length
    requires 0 <= y < e.ny && 0 <= z < e.nz
    requires CombinedBefore(img[..], sqrt, u[..], e, Voxel(0, y, z, 0))
    modifies img
    ensures CombinedBefore(img[..], sqrt, u[..], e, Voxel(0, y + 1, z, 0))
    ensures img[Volume(e)..] == old(img[Volume(e)..])
  {
    ghost var us := u[..];
    var x := 0;
    while x < e.nx
      invariant 0 <= x <= e.nx
      invariant CombinedBefore(img[..], sqrt, us, e, Voxel(x, y, z, 0))
      invariant img[Volume(e)..] == old(img[Volume(e)..])
    {
      ghost var v := Voxel(x, y, z, 0);
      var r := ChannelSumSquares(sqrt, e, u, x, y, z);
      CombinedStep(img[..], sqrt, us, e, v, sqrt(r));
      img[x + e.nx * (y + e.ny * z)] := sqrt(r);
      x := x + 1;
    }
  }

  /** Storing the current voxel's sample moves the filled part on by one voxel. */
  lemma CombinedStep(im: seq<real>, sqrt: real -> real, u: seq<Complex>, e: Extent, v: Voxel, r: real)
    requires |u| == Size(e) && InPlane(e, v) && Volume(e) <= |im|
    requires CombinedBefore(im, sqrt, u, e, v) && r == sqrt(SumSquares(sqrt, Channels(u, e, v)))
    ensures 0 <= Spatial(e, v) < Volume(e) && Spatial(e, v) == v.x + e.nx * (v.y + e.ny * v.z)
    ensures CombinedBefore(im[Spatial(e, v) := r], sqrt, u, e, v.(x := v.x + 1))
    ensures im[Spatial(e, v) := r][Volume(e)..] == im[Volume(e)..]
  {
    SpatialInside(e, v);
    forall other | InPlane(e, other) && Before(other, v) ensures Spatial(e, other) < Spatial(e, v) {
      SpatialBefore(e, other, v);
    }
  }

  // ------------------------------------------------------------------ cropping the readout

  /** The extent of the uncropped coil images: rows of readout samples. */
  function Uncropped(e: Extent, readout: nat): Extent {
    e.(nx := readout)
  }

  /**
   * The readout column that calculate_csm copies into column x of the cropped
   * images: the centred window, with the index cut to 16 bits.
   */
  function CropColumn(readout: nat, nx: nat, x: nat): (col: nat)
    requires nx <= readout
  {
    (x + (readout - nx) / 2) % 0x1_0000
  }

  /** Every cropped column lies in the readout; it is the centred column unless the readout passes 65536. */
  lemma CropColumnInRange(readout: nat, nx: nat, x: nat)
    requires x < nx <= readout
    ensures CropColumn(readout, nx, x) < readout
    ensures readout <= 0x1_0000 ==> CropColumn(readout, nx, x) == x + (readout - nx) / 2
  {
    assert x + (readout - nx) / 2 < readout;
  }

  /** The cropped coil images: voxel v of channel c is read from its cropped column of cm. */
  function Cropped(cm: seq<Complex>, readout: nat, e: Extent): (r: seq<Complex>)
    requires e.nx <= readout && |cm| == Size(Uncropped(e, readout))
    ensures |r| == Size(e)
  {
    seq(Size(e), p requires 0 <= p < Size(e) => CroppedAtPos(cm, readout, e, p))
  }

  function CroppedAtPos(cm: seq<Complex>, readout: nat, e: Extent, p: int): Complex
    requires e.nx <= readout && |cm| == Size(Uncropped(e, readout)) && 0 <= p < Size(e)
  {
    DecodeInside(e, p);
    var v := Decode(e, p);
    CropColumnInRange(readout, e.nx, v.x);
    PosInside(Uncropped(e, readout), v.(x := CropColumn(readout, e.nx, v.x)));
    cm[Pos(Uncropped(e, readout), v.(x := CropColumn(readout, e.nx, v.x)))]
  }

  /** The cropped sample of a voxel inside the cropped extent. */
  lemma CroppedAt(cm: seq<Complex>, readout: nat, e: Extent, v: Voxel)
    requires e.nx <= readout && |cm| == Size(Uncropped(e, readout)) && Inside(e, v)
    ensures 0 <= Pos(e, v) < Size(e)
    ensures CropColumn(readout, e.nx, v.x) < readout
    ensures 0 <= Pos(Uncropped(e, readout), v.(x := CropColumn(readout, e.nx, v.x))) < |cm|
    ensures Cropped(cm, readout, e)[Pos(e, v)] == cm[Pos(Uncropped(e, readout), v.(x := CropColumn(readout, e.nx, v.x)))]
  {
    DecodePos(e, v);
    CropColumnInRange(readout, e.nx, v.x);
    PosInside(Uncropped(e, readout), v.(x := CropColumn(readout, e.nx, v.x)));
  }

  /** With no extra readout samples and fewer than 65536 columns, cropping changes nothing. */
  lemma CropIdentity(cm: seq<Complex>, e: Extent)
    requires |cm| == Size(e) && e.nx <= 0x1_0000
    ensures Cropped(cm, e.nx, e) == cm
  {
    assert Uncropped(e, e.nx) == e;
    forall p | 0 <= p < Size(e) ensures Cropped(cm, e.nx, e)[p] == cm[p] {
      DecodeInside(e, p);
      var v := Decode(e, p);
      CroppedAt(cm, e.nx, e, v);
      CropColumnInRange(e.nx, e.nx, v.x);
      assert v.(x := CropColumn(e.nx, e.nx, v.x)) == v;
    }
  }

  /** Every voxel visited before cur holds its cropped sample. */
  ghost predicate CroppedBefore(out: seq<Complex>, cm: seq<Complex>, readout: nat, e: Extent, cur: Voxel)
    requires e.nx <= readout && |cm| == Size(Uncropped(e, readout)) && |out| == Size(e)
  {
    forall v :: Inside(e, v) && Before(v, cur) ==>
      0 <= Pos(e, v) < Size(e) && out[Pos(e, v)] == Cropped(cm, readout, e)[Pos(e, v)]
  }

  /** The first loop nest of calculate_csm: cm0 receives the centred columns of cm. */
  method Crop(e: Extent, readout: nat, cm: array<Complex>, cm0: array<Complex>)
    requires e.nx <= readout && cm.Length == Size(Uncropped(e, readout)) && cm0.Length == Size(e)
    requires cm != cm0
    modifies cm0
    ensures cm0[..] == Cropped(cm[..], readout, e)
  {
    ghost var cms := cm[..];
    var c := 0;
    while c < e.nc
      invariant 0 <= c <= e.nc
      invariant CroppedBefore(cm0[..], cms, readout, e, Voxel(0, 0, 0, c))
    {
      var z := 0;
      while z < e.nz
        invariant 0 <= z <= e.nz
        invariant CroppedBefore(cm0[..], cms, readout, e, Voxel(0, 0, z, c))
      {
        var y := 0;
        while y < e.ny
          invariant 0 <= y <= e.ny
          invariant CroppedBefore(cm0[..], cms, readout, e, Voxel(0, y, z, c))
        {
          CropRow(e, readout, cm, cm0, y, z, c);
          y := y + 1;
        }
        z := z + 1;
      }
      c := c + 1;
    }
    forall p | 0 <= p < Size(e) ensures cm0[p] == Cropped(cms, readout, e)[p] {
      DecodeInside(e, p);
      assert Before(Decode(e, p), Voxel(0, 0, 0, e.nc));
    }
  }

  /** The x loop of the crop over row y of slice z of channel c. */
  method CropRow(e: Extent, readout: nat, cm: array<Complex>, cm0: array<Complex>, y: int, z: int, c: int)
    requires e.nx <= readout && cm.Length == Size(Uncropped(e, readout)) && cm0.Length == Size(e)
    requires cm != cm0
    requires 0 <= y < e.ny && 0 <= z < e.nz && 0 <= c < e.nc
    requires CroppedBefore(cm0[..], cm[..], readout, e, Voxel(0, y, z, c))
    modifies cm0
    ensures CroppedBefore(cm0[..], cm[..], readout, e, Voxel(0, y + 1, z, c))
  {
    ghost var cms := cm[..];
    var x := 0;
    while x < e.nx
      invariant 0 <= x <= e.nx
      invariant CroppedBefore(cm0[..], cms, readout, e, Voxel(x, y, z, c))
    {
      var xout := (x + (readout - e.nx) / 2) % 0x1_0000;
      ghost var v := Voxel(x, y, z, c);
      CroppedAt(cms, readout, e, v);
      CroppedStep(cm0[..], cms, readout, e, v);
      cm0[x + e.nx * (y + e.ny * (z + e.nz * c))] := cm[xout + readout * (y + e.ny * (z + e.nz * c))];
      x := x + 1;
    }
  }

  /** Storing the current voxel's cropped sample moves the copied part on by one voxel. */
  lemma CroppedStep(out: seq<Complex>, cm: seq<Complex>, readout: nat, e: Extent, v: Voxel)
    requires e.nx <= readout && |cm| == Size(Uncropped(e, readout)) && |out| == Size(e) && Inside(e, v)
    requires CroppedBefore(out, cm, readout, e, v)
    ensures 0 <= Pos(e, v) < Size(e)
    ensures CroppedBefore(out[Pos(e, v) := Cropped(cm, readout, e)[Pos(e, v)]], cm, readout, e, v.(x := v.x + 1))
  {
    PosInside(e, v);
    forall other | Inside(e, other) && Before(other, v) ensures Pos(e, other) < Pos(e, v) {
      BeforePosLess(e, other, v);
    }
  }

  // ------------------------------------------------------------------ normalisation

  /** The scale of a voxel: the reciprocal of its combined magnitude inside the object mask, 0 elsewhere. */
  function Scale(r: real, m: int): real {
    if r != 0.0 && m != 0 then 1.0 / r else 0.0
  }

  /** The sample of voxel v scaled by s. */
  function ScaledAt(u: seq<Complex>, e: Extent, s: real, v: Voxel): Complex
    requires |u| == Size(e) && Inside(e, v)
  {
    PosInside(e, v);
    Mul(Complex(s, 0.0), u[Pos(e, v)])
  }

  /** The sensitivity of voxel v: its sample times the scale of its voxel position. */
  function NormalisedAt(u: seq<Complex>, img: seq<real>, mask: seq<int>, e: Extent, v: Voxel): Complex
    requires |u| == Size(e) && Volume(e) <= |img| && Volume(e) <= |mask| && Inside(e, v)
  {
    PosInside(e, v);
    ScaledAt(u, e, Scale(img[Spatial(e, v)], mask[Spatial(e, v)]), v)
  }

  /** The normalised coil images over the cropped extent. */
  function Normalised(u: seq<Complex>, img: seq<real>, mask: seq<int>, e: Extent): (r: seq<Complex>)
    requires |u| == Size(e) && Volume(e) <= |img| && Volume(e) <= |mask|
    ensures |r| == Size(e)
  {
    seq(Size(e), p requires 0 <= p < Size(e) => NormalisedAtPos(u, img, mask, e, p))
  }

  function NormalisedAtPos(u: seq<Complex>, img: seq<real>, mask: seq<int>, e: Extent, p: int): Complex
    requires |u| == Size(e) && Volume(e) <= |img| && Volume(e) <= |mask| && 0 <= p < Size(e)
  {
    DecodeInside(e, p);
    NormalisedAt(u, img, mask, e, Decode(e, p))
  }

  lemma NormalisedPos(u: seq<Complex>, img: seq<real>, mask: seq<int>, e: Extent, v: Voxel)
    requires |u| == Size(e) && Volume(e) <= |img| && Volume(e) <= |mask| && Inside(e, v)
    ensures 0 <= Pos(e, v) < Size(e)
    ensures Normalised(u, img, mask, e)[Pos(e, v)] == NormalisedAt(u, img, mask, e, v)
  {
    DecodePos(e, v);
  }

  /**
   * The csm array after the last loop of calculate_csm: columns below nx hold the
   * normalised samples, the columns past them keep what was there.
   */
  function Placed(prev: seq<Complex>, n: seq<Complex>, e: Extent, readout: nat): (r: seq<Complex>)
    requires e.nx <= readout && |n| == Size(e) && |prev| == Size(Uncropped(e, readout))
    ensures |r| == |prev|
  {
    seq(|prev|, p requires 0 <= p < |prev| => PlacedAtPos(prev, n, e, readout, p))
  }

  function PlacedAtPos(prev: seq<Complex>, n: seq<Complex>, e: Extent, readout: nat, p: int): Complex
    requires e.nx <= readout && |n| == Size(e) && |prev| == Size(Uncropped(e, readout)) && 0 <= p < |prev|
  {
    DecodeInside(Uncropped(e, readout), p);
    var v := Decode(Uncropped(e, readout), p);
    if v.x < e.nx then PosInside(e, v); n[Pos(e, v)] else prev[p]
  }

  /** What Placed holds at a voxel of the uncropped extent. */
  lemma PlacedAt(prev: seq<Complex>, n: seq<Complex>, e: Extent, readout: nat, v: Voxel)
    requires e.nx <= readout && |n| == Size(e) && |prev| == Size(Uncropped(e, readout))
    requires Inside(Uncropped(e, readout), v)
    ensures 0 <= Pos(Uncropped(e, readout), v) < |prev|
    ensures v.x < e.nx ==>
      0 <= Pos(e, v) < Size(e) && Placed(prev, n, e, readout)[Pos(Uncropped(e, readout), v)] == n[Pos(e, v)]
    ensures e.nx <= v.x ==>
      Placed(prev, n, e, readout)[Pos(Uncropped(e, readout), v)] == prev[Pos(Uncropped(e, readout), v)]
  {
    DecodePos(Uncropped(e, readout), v);
    if v.x < e.nx {
      PosInside(e, v);
    }
  }

  /** When the readout is not cropped, the csm array is the normalised images. */
  lemma PlacedUncropped(prev: seq<Complex>, n: seq<Complex>, e: Extent)
    requires |n| == Size(e) && |prev| == Size(e)
    ensures Placed(prev, n, e, e.nx) == n
  {
    assert Uncropped(e, e.nx) == e;
    forall p | 0 <= p < Size(e) ensures Placed(prev, n, e, e.nx)[p] == n[p] {
      DecodeInside(e, p);
      PlacedAt(prev, n, e, e.nx, Decode(e, p));
    }
  }

  /**
   * Every voxel position visited before cur holds its normalised samples in all
   * channels; every other sample of csm still holds its previous value.
   */
  ghost predicate NormalisedBefore(cs: seq<Complex>, prev: seq<Complex>, n: seq<Complex>, e: Extent, readout: nat, cur: Voxel)
    requires e.nx <= readout && |n| == Size(e) && |prev| == Size(Uncropped(e, readout)) && |cs| == |prev|
  {
    forall v :: Inside(Uncropped(e, readout), v) ==>
      0 <= Pos(Uncropped(e, readout), v) < |cs| &&
      cs[Pos(Uncropped(e, readout), v)] ==
        if v.x < e.nx && Before(v.(c := 0), cur) then Placed(prev, n, e, readout)[Pos(Uncropped(e, readout), v)]
        else prev[Pos(Uncropped(e, readout), v)]
  }

  /**
   * The last loop nest of calculate_csm: each voxel position gets its scale from
   * img and the object mask, and every channel of csm there becomes the scaled
   * sample of u.
   */
  method Normalise(e: Extent, readout: nat, img: array<real>, mask: array<int>, u: array<Complex>, csm: array<Complex>)
    requires e.nx <= readout && u.Length == Size(e) && csm.Length == Size(Uncropped(e, readout))
    requires Volume(e) <= img.Length && mask.Length == Volume(e) && u != csm
    modifies csm
    ensures csm[..] == Placed(old(csm[..]), Normalised(u[..], img[..Volume(e)], mask[..], e), e, readout)
  {
    ghost var n := Normalised(u[..], img[..Volume(e)], mask[..], e);
    ghost var prev := csm[..];
    NormalisedStart(prev, n, e, readout);
    var z := 0;
    var i := 0;
    while z < e.nz
      invariant 0 <= z <= e.nz && i == Spatial(e, Voxel(0, 0, z, 0))
      invariant NormalisedBefore(csm[..], prev, n, e, readout, Voxel(0, 0, z, 0))
    {
      i := NormaliseSlice(e, readout, img, mask, u, csm, z, i, prev, n);
      z := z + 1;
    }
    NormalisedAll(csm[..], prev, n, e, readout);
  }

  /** The y loop of the normalisation over slice z; i counts the voxel positions. */
  method NormaliseSlice(e: Extent, readout: nat, img: array<real>, mask: array<int>, u: array<Complex>, csm: array<Complex>,
                        z: int, i0: int, ghost prev: seq<Complex>, ghost n: seq<Complex>) returns (i: int)
    requires e.nx <= readout && u.Length == Size(e) && csm.Length == Size(Uncropped(e, readout))
    requires Volume(e) <= img.Length && mask.Length == Volume(e) && u != csm
    requires 0 <= z < e.nz && i0 == Spatial(e, Voxel(0, 0, z, 0))
    requires |prev| == csm.Length && n == Normalised(u[..], img[..Volume(e)], mask[..], e)
    requires NormalisedBefore(csm[..], prev, n, e, readout, Voxel(0, 0, z, 0))
    modifies csm
    ensures i == Spatial(e, Voxel(0, 0, z + 1, 0))
    ensures NormalisedBefore(csm[..], prev, n, e, readout, Voxel(0, 0, z + 1, 0))
  {
    i := i0;
    var y := 0;
    while y < e.ny
      invariant 0 <= y <= e.ny && i == Spatial(e, Voxel(0, y, z, 0))
      invariant NormalisedBefore(csm[..], prev, n, e, readout, Voxel(0, y, z, 0))
    {
      i := NormaliseRow(e, readout, img, mask, u, csm, y, z, i, prev, n);
      CarryX(e, y, z, 0);
      y := y + 1;
    }
    CarryY(e, z, 0);
  }

  /** Once every slice is visited, the whole map holds the placed normalised samples. */
  lemma NormalisedAll(cs: seq<Complex>, prev: seq<Complex>, n: seq<Complex>, e: Extent, readout: nat)
    requires e.nx <= readout && |n| == Size(e) && |prev| == Size(Uncropped(e, readout)) && |cs| == |prev|
    requires NormalisedBefore(cs, prev, n, e, readout, Voxel(0, 0, e.nz, 0))
    ensures cs == Placed(prev, n, e, readout)
  {
    var ecm := Uncropped(e, readout);
    forall p | 0 <= p < |prev| ensures cs[p] == Placed(prev, n, e, readout)[p] {
      DecodeInside(ecm, p);
      var v := Decode(ecm, p);
      PlacedAt(prev, n, e, readout, v);
      assert Before(v.(c := 0), Voxel(0, 0, e.nz, 0));
    }
  }

  lemma NormalisedStart(prev: seq<Complex>, n: seq<Complex>, e: Extent, readout: nat)
    requires e.nx <= readout && |n| == Size(e) && |prev| == Size(Uncropped(e, readout))
    ensures NormalisedBefore(prev, prev, n, e, readout, Voxel(0, 0, 0, 0))
  {
    forall v | Inside(Uncropped(e, readout), v) ensures 0 <= Pos(Uncropped(e, readout), v) < |prev| {
      PosInside(Uncropped(e, readout), v);
    }
  }

  /** The x loop of the normalisation over row y of slice z; i counts the voxel positions. */
  method NormaliseRow(e: Extent, readout: nat, img: array<real>, mask: array<int>, u: array<Complex>, csm: array<Complex>,
                      y: int, z: int, i0: int, ghost prev: seq<Complex>, ghost n: seq<Complex>) returns (i: int)
    requires e.nx <= readout && u.Length == Size(e) && csm.Length == Size(Uncropped(e, readout))
    requires Volume(e) <= img.Length && mask.Length == Volume(e) && u != csm
    requires 0 <= y < e.ny && 0 <= z < e.nz && i0 == Spatial(e, Voxel(0, y, z, 0))
    requires |prev| == csm.Length && n == Normalised(u[..], img[..Volume(e)], mask[..], e)
    requires NormalisedBefore(csm[..], prev, n, e, readout, Voxel(0, y, z, 0))
    modifies csm
    ensures i == i0 + e.nx
    ensures NormalisedBefore(csm[..], prev, n, e, readout, Voxel(0, y + 1, z, 0))
  {
    ghost var row := Voxel(0, y, z, 0);
    i := i0;
    var x := 0;
    while x < e.nx
      invariant 0 <= x <= e.nx && i == i0 + x
      invariant NormalisedBefore(csm[..], prev, n, e, readout, Voxel(x, y, z, 0))
    {
      ghost var v := Voxel(x, y, z, 0);
      PosShift(e, row, x, 0);
      assert v == row.(x := row.x + x, y := row.y + 0);
      SpatialInside(e, v);
      var r := img[x + e.nx * (y + e.ny * z)];
      var s := if r != 0.0 && mask[i] != 0 then 1.0 / r else 0.0;
      ghost var before := csm[..];
      NormaliseVoxel(e, readout, u, csm, x, y, z, s);
      NormalisedStep(before, csm[..], prev, n, u[..], img[..Volume(e)], mask[..], e, readout, v, s);
      x := x + 1;
      i := i + 1;
    }
  }

  /** The channels below c of voxel position (x, y, z) hold their scaled samples; the rest of cs is prev. */
  ghost predicate ChannelsScaled(cs: seq<Complex>, prev: seq<Complex>, u: seq<Complex>, e: Extent, readout: nat,
                                 x: int, y: int, z: int, s: real, c: int)
    requires e.nx <= readout && |u| == Size(e) && |cs| == Size(Uncropped(e, readout)) && |prev| == |cs|
    requires 0 <= x < e.nx
  {
    forall v :: Inside(Uncropped(e, readout), v) ==>
      0 <= Pos(Uncropped(e, readout), v) < |cs| &&
      cs[Pos(Uncropped(e, readout), v)] ==
        if v.x == x && v.y == y && v.z == z && v.c < c then ScaledAt(u, e, s, v)
        else prev[Pos(Uncropped(e, readout), v)]
  }

  /** The channel loop of the normalisation at voxel position (x, y, z), with scale s. */
  method NormaliseVoxel(e: Extent, readout: nat, u: array<Complex>, csm: array<Complex>, x: int, y: int, z: int, s: real)
    requires e.nx <= readout && u.Length == Size(e) && csm.Length == Size(Uncropped(e, readout)) && u != csm
    requires InPlane(e, Voxel(x, y, z, 0))
    modifies csm
    ensures ChannelsScaled(csm[..], old(csm[..]), u[..], e, readout, x, y, z, s, e.nc)
  {
    ghost var prev := csm[..];
    ChannelsScaledStart(prev, u[..], e, readout, x, y, z, s);
    var c := 0;
    while c < e.nc
      invariant 0 <= c <= e.nc
      invariant ChannelsScaled(csm[..], prev, u[..], e, readout, x, y, z, s, c)
    {
      ghost var w := Voxel(x, y, z, c);
      ChannelsScaledStep(csm[..], prev, u[..], e, readout, w, s);
      csm[x + readout * (y + e.ny * (z + e.nz * c))] := Mul(Complex(s, 0.0), u[x + e.nx * (y + e.ny * (z + e.nz * c))]);
      c := c + 1;
    }
  }

  lemma ChannelsScaledStart(prev: seq<Complex>, u: seq<Complex>, e: Extent, readout: nat, x: int, y: int, z: int, s: real)
    requires e.nx <= readout && |u| == Size(e) && |prev| == Size(Uncropped(e, readout)) && 0 <= x < e.nx
    ensures ChannelsScaled(prev, prev, u, e, readout, x, y, z, s, 0)
  {
    forall v | Inside(Uncropped(e, readout), v) ensures 0 <= Pos(Uncropped(e, readout), v) < |prev| {
      PosInside(Uncropped(e, readout), v);
    }
  }

  /** Writing channel w.c of the voxel position moves the scaled channels on by one. */
  lemma ChannelsScaledStep(cs: seq<Complex>, prev: seq<Complex>, u: seq<Complex>, e: Extent, readout: nat, w: Voxel, s: real)
    requires e.nx <= readout && |u| == Size(e) && |cs| == Size(Uncropped(e, readout)) && |prev| == |cs|
    requires Inside(e, w)
    requires ChannelsScaled(cs, prev, u, e, readout, w.x, w.y, w.z, s, w.c)
    ensures 0 <= Pos(e, w) < |u| && 0 <= Pos(Uncropped(e, readout), w) < |cs|
    ensures ScaledAt(u, e, s, w) == Mul(Complex(s, 0.0), u[Pos(e, w)])
    ensures ChannelsScaled(cs[Pos(Uncropped(e, readout), w) := ScaledAt(u, e, s, w)], prev, u, e, readout, w.x, w.y, w.z, s, w.c + 1)
  {
    var ecm := Uncropped(e, readout);
    PosInside(e, w);
    PosInside(ecm, w);
    forall v | Inside(ecm, v) && v != w ensures Pos(ecm, v) != Pos(ecm, w) {
      if Pos(ecm, v) == Pos(ecm, w) {
        PosInjective(ecm, v, w);
      }
    }
  }

  /** One voxel position of the normalisation moves the normalised part on by one position. */
  lemma NormalisedStep(before: seq<Complex>, after: seq<Complex>, prev: seq<Complex>, n: seq<Complex>,
                       u: seq<Complex>, img: seq<real>, mask: seq<int>, e: Extent, readout: nat, cur: Voxel, s: real)
    requires e.nx <= readout && |u| == Size(e) && Volume(e) <= |img| && |mask| == Volume(e)
    requires |prev| == Size(Uncropped(e, readout)) && |before| == |prev| && |after| == |prev|
    requires n == Normalised(u, img, mask, e) && InPlane(e, cur)
    requires 0 <= Spatial(e, cur) < Volume(e)
    requires s == Scale(img[Spatial(e, cur)], mask[Spatial(e, cur)])
    requires NormalisedBefore(before, prev, n, e, readout, cur)
    requires ChannelsScaled(after, before, u, e, readout, cur.x, cur.y, cur.z, s, e.nc)
    ensures NormalisedBefore(after, prev, n, e, readout, cur.(x := cur.x + 1))
  {
    var ecm := Uncropped(e, readout);
    forall v | Inside(ecm, v)
      ensures after[Pos(ecm, v)] ==
        if v.x < e.nx && Before(v.(c := 0), cur.(x := cur.x + 1)) then Placed(prev, n, e, readout)[Pos(ecm, v)]
        else prev[Pos(ecm, v)]
    {
      if v.x == cur.x && v.y == cur.y && v.z == cur.z {
        PlacedAt(prev, n, e, readout, v);
        NormalisedPos(u, img, mask, e, v);
        assert v.(c := 0) == cur;
      }
    }
  }

  // ------------------------------------------------------------------ calculate_csm

  /** MaxAbs looks at the first n entries only. */
  lemma {:induction false} MaxAbsPrefix(u: seq<real>, n: nat)
    requires n <= |u|
    ensures MaxAbs(u, n) == MaxAbs(u[..n], n)
    decreases n
  {
    if n > 0 {
      MaxAbsPrefix(u, n - 1);
      MaxAbsPrefix(u[..n], n - 1);
      assert u[..n][..n - 1] == u[..n - 1];
    }
  }

  /**
   * The gradient threshold of calculate_csm: twice the largest combined magnitude
   * over nx + ny. With nx + ny == 0 the source divides by zero; no voxel is interior
   * then, so the threshold is never compared and 0 stands for it.
   */
  function SmallGrad(maxIm: real, e: Extent): real {
    if e.nx + e.ny == 0 then 0.0 else maxIm * 2.0 / (e.nx + e.ny) as real
  }

  /** Without columns there is no interior voxel, and the noise level is 0 whatever the threshold. */
  lemma NoiseLevelWithoutColumns(s: real, sqrt: real -> real, u: seq<Complex>, w: seq<Complex>, e: Extent, small: real)
    requires |u| == Size(e) && |w| == Size(e) && e.nx == 0
    ensures IsNoiseLevel(s, sqrt, u, w, e, small) <==> s == 0.0
  {
    forall v ensures !Quiet(sqrt, u, e, small, v) {
    }
  }

  /** The number of smoothing rounds of a loop that runs while its counter is below k. */
  function Rounds(k: int): (n: nat)
    ensures k <= 0 ==> n == 0
    ensures 0 <= k ==> n == k
  {
    if k < 0 then 0 else k
  }

  /** u smoothed k times with the same mask and window. */
  function SmoothedTimes(u: seq<Complex>, mask: Option<seq<int>>, e: Extent, w: nat, k: nat): (r: seq<Complex>)
    requires Shaped(u, mask, e)
    ensures |r| == |u|
  {
    if k == 0 then u else Smoothed(SmoothedTimes(u, mask, e, w, k - 1), mask, e, w)
  }

  /** Repeated smoothing keeps a constant image constant. */
  lemma {:induction false} SmoothedTimesKeepsConstant(u: seq<Complex>, mask: Option<seq<int>>, e: Extent, w: nat, k: nat, c: Complex)
    requires Shaped(u, mask, e)
    requires forall p :: 0 <= p < |u| ==> u[p] == c
    ensures SmoothedTimes(u, mask, e, w, k) == u
  {
    if k > 0 {
      SmoothedTimesKeepsConstant(u, mask, e, w, k - 1, c);
      SmoothKeepsConstant(u, mask, e, w, c);
    }
  }

  /** Repeated masked smoothing leaves the samples of a masked-out voxel as they were. */
  lemma {:induction false} SmoothedTimesKeepsMasked(u: seq<Complex>, mask: seq<int>, e: Extent, w: nat, k: nat, v: Voxel)
    requires Shaped(u, Some(mask), e) && Inside(e, v)
    requires 0 <= Spatial(e, v) < |mask| && mask[Spatial(e, v)] == 0
    ensures 0 <= Pos(e, v) < |u| && SmoothedTimes(u, Some(mask), e, w, k)[Pos(e, v)] == u[Pos(e, v)]
  {
    PosInside(e, v);
    if k > 0 {
      SmoothedTimesKeepsMasked(u, mask, e, w, k - 1, v);
      SmoothKeepsMasked(SmoothedTimes(u, Some(mask), e, w, k - 1), mask, e, w, v);
    }
  }

  /**
   * calculate_csm: crop the readout to nx columns, combine the channels, estimate
   * the noise from three unmasked smoothings, mask out the voxels at or below it,
   * smooth the coil images `smoothness` times inside the mask and divide every
   * channel by the combined magnitude of the smoothed images.
   */
  method CalculateCsm(sqrt: real -> real, e: Extent, readout: nat, smoothness: int,
                      cm: array<Complex>, img: array<real>, csm: array<Complex>)
      returns (noise: real, ghost mask: seq<int>)
    requires e.nx <= readout && cm.Length == Size(Uncropped(e, readout)) && csm.Length == cm.Length
    requires cm != csm && Volume(e) <= img.Length
    modifies img, csm
    ensures var cm0 := Cropped(cm[..], readout, e);
            var img0 := RootSumSquares(sqrt, cm0, e);
            && IsNoiseLevel(noise, sqrt, SmoothedTimes(cm0, None, e, 1, 3), cm0, e, SmallGrad(MaxAbs(img0, Volume(e)), e))
            && mask == NoiseMask(img0, noise)
            && var cms := SmoothedTimes(cm0, Some(mask), e, 1, Rounds(smoothness));
               && img[..Volume(e)] == RootSumSquares(sqrt, cms, e)
               && csm[..] == Placed(old(csm[..]), Normalised(cms, img[..Volume(e)], mask, e), e, readout)
    ensures img[Volume(e)..] == old(img[Volume(e)..])
  {
    ghost var csm0 := csm[..];
    var cm0 := new Complex[Size(e)];
    Crop(e, readout, cm, cm0);
    ghost var cropped := cm0[..];
    var objectMask := new int[Volume(e)](_ => 0);
    noise := EstimateNoise(sqrt, e, cm0, img, objectMask);
    mask := objectMask[..];
    SmoothRounds(e, cm0, objectMask, smoothness);
    ghost var cms := cm0[..];
    assert cms == SmoothedTimes(cropped, Some(mask), e, 1, Rounds(smoothness));
    CombineChannels(sqrt, e, cm0, img);
    ghost var combined := img[..Volume(e)];
    assert combined == RootSumSquares(sqrt, cms, e);
    Normalise(e, readout, img, objectMask, cm0, csm);
    assert csm[..] == Placed(csm0, Normalised(cms, combined, mask, e), e, readout);
  }

  /** The smoothing rounds of calculate_csm: smoothen_ with the object mask, smoothness times. */
  method SmoothRounds(e: Extent, u: array<Complex>, objectMask: array<int>, smoothness: int)
    requires u.Length == Size(e) && objectMask.Length == Volume(e)
    modifies u
    ensures u[..] == SmoothedTimes(old(u[..]), Some(objectMask[..]), e, 1, Rounds(smoothness))
  {
    ghost var us := u[..];
    var w := new Complex[Size(e)];
    var i := 0;
    while i < smoothness
      invariant 0 <= i && (i <= smoothness || i == 0)
      invariant u[..] == SmoothedTimes(us, Some(objectMask[..]), e, 1, i)
    {
      Smoothen(e, u, w, objectMask, 1);
      i := i + 1;
    }
  }

  /**
   * The middle of calculate_csm: combine the channels of u into img, smooth copies
   * of u three times without a mask, take the noise level of u against the smoothed
   * images with the gradient threshold from the largest combined magnitude, and
   * mark the voxels above it in the object mask.
   */
  method EstimateNoise(sqrt: real -> real, e: Extent, u: array<Complex>, img: array<real>, objectMask: array<int>)
      returns (noise: real)
    requires u.Length == Size(e) && Volume(e) <= img.Length && objectMask.Length == Volume(e)
    modifies img, objectMask
    ensures img[..Volume(e)] == RootSumSquares(sqrt, u[..], e)
    ensures IsNoiseLevel(noise, sqrt, SmoothedTimes(u[..], None, e, 1, 3), u[..], e, SmallGrad(MaxAbs(img[..Volume(e)], Volume(e)), e))
    ensures objectMask[..] == NoiseMask(img[..Volume(e)], noise)
    ensures img[Volume(e)..] == old(img[Volume(e)..])
  {
    var v := new Complex[Size(e)];
    var w := new Complex[Size(e)];
    forall k | 0 <= k < Size(e) {
      v[k] := u[k];
    }
    ghost var us := u[..];
    assert v[..] == us;

    CombineChannels(sqrt, e, u, img);
    ghost var img0 := img[..Volume(e)];
    var maxIm := Max(e, img);
    MaxAbsPrefix(img[..], Volume(e));
    assert img[..][..Volume(e)] == img0;
    var smallGrad := SmallGrad(maxIm, e);

    SmoothThrice(e, v, w);
    assert img[..Volume(e)] == img0;
    noise := MaxDiff(sqrt, e, smallGrad, v, u);
    MaskNoise(e, img, noise, objectMask);
    assert objectMask[..] == objectMask[..Volume(e)];
  }

  /** The three unmasked smoothing passes over the copy v in calculate_csm. */
  method SmoothThrice(e: Extent, v: array<Complex>, w: array<Complex>)
    requires v.Length == Size(e) && w.Length == Size(e) && v != w
    modifies v, w
    ensures v[..] == SmoothedTimes(old(v[..]), None, e, 1, 3)
    ensures w[..] == v[..]
  {
    ghost var vs := v[..];
    var i := 0;
    while i < 3
      invariant 0 <= i <= 3
      invariant v[..] == SmoothedTimes(vs, None, e, 1, i)
      invariant i > 0 ==> w[..] == v[..]
    {
      Smoothen(e, v, w, null, 1);
      i := i + 1;
    }
  }

  // ------------------------------------------------------------------ properties of the sensitivities

  /** The total power of a list of samples, added in order. */
  function Power(cs: seq<Complex>): (r: real)
    ensures 0.0 <= r
  {
    if |cs| == 0 then 0.0
    else
      assert 0.0 <= cs[|cs| - 1].re * cs[|cs| - 1].re && 0.0 <= cs[|cs| - 1].im * cs[|cs| - 1].im;
      Power(cs[..|cs| - 1]) + AbsSq(cs[|cs| - 1])
  }

  /** Every sample multiplied by the real factor t. */
  function ScaledBy(cs: seq<Complex>, t: real): (r: seq<Complex>)
    ensures |r| == |cs|
  {
    seq(|cs|, i requires 0 <= i < |cs| => Mul(Complex(t, 0.0), cs[i]))
  }

  /** Scaling every sample by t scales the power by t squared. */
  lemma {:induction false} PowerScaled(cs: seq<Complex>, t: real)
    ensures Power(ScaledBy(cs, t)) == t * t * Power(cs)
  {
    var n := |cs|;
    if n > 0 {
      var front := cs[..n - 1];
      PowerScaled(front, t);
      assert ScaledBy(cs, t)[..n - 1] == ScaledBy(front, t);
      ScaledPower(t, cs[n - 1]);
      PowerStep(t * t, Power(ScaledBy(cs, t)), Power(ScaledBy(front, t)), AbsSq(ScaledBy(cs, t)[n - 1]),
                Power(cs), Power(front), AbsSq(cs[n - 1]));
    }
  }

  /** With an exact square root, the sum of squared magnitudes is the power. */
  lemma {:induction false} SumSquaresIsPower(sqrt: real -> real, cs: seq<Complex>)
    requires ExactSqrt(sqrt)
    ensures SumSquares(sqrt, cs) == Power(cs)
  {
    if |cs| > 0 {
      SumSquaresIsPower(sqrt, cs[..|cs| - 1]);
      MagnitudeSquared(sqrt, cs[|cs| - 1]);
    }
  }

  /** With an exact square root, the squared magnitude is the power. */
  lemma MagnitudeSquared(sqrt: real -> real, a: Complex)
    requires ExactSqrt(sqrt)
    ensures Magnitude(sqrt, a) * Magnitude(sqrt, a) == AbsSq(a)
  {
    var t := AbsSq(a);
    assert 0.0 <= a.re * a.re && 0.0 <= a.im * a.im;
    assert 0.0 <= t;
    assert sqrt(t) * sqrt(t) == t;
  }

  /** Adding one sample keeps the powers in proportion k. */
  lemma PowerStep(k: real, pn: real, pn1: real, an: real, pu: real, pu1: real, au: real)
    requires pn == pn1 + an && pu == pu1 + au && pn1 == k * pu1 && an == k * au
    ensures pn == k * pu
  {
  }

  lemma ScaledPower(s: real, a: Complex)
    ensures AbsSq(Mul(Complex(s, 0.0), a)) == s * s * AbsSq(a)
  {
    assert Mul(Complex(s, 0.0), a) == Complex(s * a.re, s * a.im);
  }

  /** Every channel of the normalised samples at voxel position v carries the scale of that position. */
  lemma NormalisedChannel(u: seq<Complex>, img: seq<real>, mask: seq<int>, e: Extent, v: Voxel, c: int)
    requires |u| == Size(e) && Volume(e) <= |img| && |mask| == Volume(e) && InPlane(e, v) && 0 <= c < e.nc
    ensures 0 <= Spatial(e, v) < Volume(e)
    ensures NormalisedAt(u, img, mask, e, v.(c := c))
      == ScaledBy(Channels(u, e, v), Scale(img[Spatial(e, v)], mask[Spatial(e, v)]))[c]
  {
    SpatialInside(e, v);
    assert Spatial(e, v.(c := c)) == Spatial(e, v);
  }

  /**
   * The sensitivities are normalised: with an exact square root, at a voxel position
   * inside the object mask whose combined magnitude is not 0, the channel samples
   * scaled by the reciprocal of that magnitude have total power 1.
   */
  lemma CsmNormalised(sqrt: real -> real, u: seq<Complex>, mask: seq<int>, e: Extent, v: Voxel)
    requires ExactSqrt(sqrt) && |u| == Size(e) && |mask| == Volume(e) && InPlane(e, v)
    requires 0 <= Spatial(e, v) < Volume(e)
    requires mask[Spatial(e, v)] != 0 && RootSumSquares(sqrt, u, e)[Spatial(e, v)] != 0.0
    ensures Power(ScaledBy(Channels(u, e, v), Scale(RootSumSquares(sqrt, u, e)[Spatial(e, v)], mask[Spatial(e, v)]))) == 1.0
  {
    RootSumSquaresAt(sqrt, u, e, v);
    UnitPower(sqrt, Channels(u, e, v), mask[Spatial(e, v)]);
  }

  /**
   * Samples whose root sum of squares r is not 0, scaled by the reciprocal of r,
   * have total power 1.
   */
  lemma UnitPower(sqrt: real -> real, cs: seq<Complex>, m: int)
    requires ExactSqrt(sqrt) && m != 0 && sqrt(SumSquares(sqrt, cs)) != 0.0
    ensures Power(ScaledBy(cs, Scale(sqrt(SumSquares(sqrt, cs)), m))) == 1.0
  {
    var r := sqrt(SumSquares(sqrt, cs));
    var s := Scale(r, m);
    PowerScaled(cs, s);
    SumSquaresIsPower(sqrt, cs);
    ScaledPowerIsOne(sqrt, Power(cs), r, m, s);
  }

  /** The scale of a voxel inside the mask times itself times its power is 1. */
  lemma ScaledPowerIsOne(sqrt: real -> real, p: real, r: real, m: int, s: real)
    requires ExactSqrt(sqrt) && 0.0 <= p && r == sqrt(p) && r != 0.0 && m != 0 && s == Scale(r, m)
    ensures s * s * p == 1.0
  {
    assert r * r == p;
    ReciprocalSquared(s, r, p);
  }

  lemma ReciprocalSquared(s: real, r: real, p: real)
    requires r != 0.0 && s == 1.0 / r && r * r == p
    ensures s * s * p == 1.0
  {
    assert s * r == 1.0;
    calc {
      s * s * p;
      == s * s * (r * r);
      == (s * r) * (s * r);
    }
  }

  /** Outside the object mask every channel of the sensitivities is 0. */
  lemma CsmZeroOutsideMask(u: seq<Complex>, img: seq<real>, mask: seq<int>, e: Extent, v: Voxel)
    requires |u| == Size(e) && Volume(e) <= |img| && |mask| == Volume(e) && Inside(e, v)
    requires 0 <= Spatial(e, v) < Volume(e) && mask[Spatial(e, v)] == 0
    ensures 0 <= Pos(e, v) < Size(e) && Normalised(u, img, mask, e)[Pos(e, v)] == Zero
  {
    NormalisedPos(u, img, mask, e, v);
    PosInside(e, v);
    var a := u[Pos(e, v)];
    assert Mul(Complex(0.0, 0.0), a) == Complex(0.0 * a.re - 0.0 * a.im, 0.0 * a.im + 0.0 * a.re);
  }
}

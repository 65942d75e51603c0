/**
 * Voxel coordinates of the coil-map arrays. Samples are stored x fastest, then y,
 * z and channel, so voxel (x, y, z) of channel c sits at x + nx*(y + ny*(z + nz*c)).
 */
module Grid {

  /** The extent of a multi-channel volume. */
  datatype Extent = Extent(nx: nat, ny: nat, nz: nat, nc: nat)

  datatype Voxel = Voxel(x: int, y: int, z: int, c: int)

  predicate Inside(e: Extent, v: Voxel) {
    0 <= v.x < e.nx && 0 <= v.y < e.ny && 0 <= v.z < e.nz && 0 <= v.c < e.nc
  }

  /** Number of voxels of one channel. */
  function Volume(e: Extent): nat {
    e.nx * e.ny * e.nz
  }

  /** Number of samples of all channels. */
  function Size(e: Extent): nat {
    Volume(e) * e.nc
  }

  /** Flat position of a voxel. */
  function Pos(e: Extent, v: Voxel): int {
    v.x + e.nx * (v.y + e.ny * (v.z + e.nz * v.c))
  }

  /** Flat position of a voxel's channel-0 sample: its position in a one-channel array. */
  function Spatial(e: Extent, v: Voxel): int {
    Pos(e, v.(c := 0))
  }

  /** The voxel stored at flat position p. */
  function Decode(e: Extent, p: int): Voxel
    requires 0 <= p < Size(e)
  {
    assert e.nx > 0 && e.ny > 0 && e.nz > 0;
    var q := p / e.nx;
    var r := q / e.ny;
    Voxel(p % e.nx, q % e.ny, r % e.nz, r / e.nz)
  }

  // ------------------------------------------------------------------ mixed radix

  lemma MulMonotone(n: int, x: int, y: int)
    requires 0 <= n && x <= y
    ensures n * x <= n * y
  {
    assert n * y - n * x == n * (y - x);
    assert 0 <= n * (y - x);
  }

  /** A digit below n followed by a number below m is below n*m. */
  lemma MixedRadixBound(a: int, b: int, n: int, m: int)
    requires 0 <= a < n && 0 <= b < m
    ensures 0 <= a + n * b < n * m
  {
    MulMonotone(n, b, m - 1);
    assert n * (m - 1) == n * m - n;
    MulMonotone(n, 0, b);
  }

  /** The last digit and the rest of a mixed-radix number are determined by its value. */
  lemma MixedRadixUnique(a: int, b: int, a': int, b': int, n: int)
    requires 0 <= a < n && 0 <= a' < n && a + n * b == a' + n * b'
    ensures a == a' && b == b'
  {
    if b < b' {
      MulMonotone(n, b + 1, b');
    } else if b' < b {
      MulMonotone(n, b' + 1, b);
    }
  }

  /** Division and remainder recover the digits. */
  lemma DivModDigits(a: int, b: int, n: int)
    requires 0 <= a < n && 0 <= b
    ensures (a + n * b) / n == b && (a + n * b) % n == a
  {
    var p := a + n * b;
    MixedRadixUnique(p % n, p / n, a, b, n);
  }

  // ------------------------------------------------------------------ positions

  lemma PosInside(e: Extent, v: Voxel)
    requires Inside(e, v)
    ensures 0 <= Pos(e, v) < Size(e)
    ensures 0 <= Spatial(e, v) < Volume(e)
  {
    PosBelowSize(e, v);
    SpatialBelowVolume(e, v);
  }

  lemma PosBelowSize(e: Extent, v: Voxel)
    requires Inside(e, v)
    ensures 0 <= Pos(e, v) < Size(e)
  {
    var a := v.z + e.nz * v.c;
    MixedRadixBound(v.z, v.c, e.nz, e.nc);
    var b := v.y + e.ny * a;
    MixedRadixBound(v.y, a, e.ny, e.nz * e.nc);
    MixedRadixBound(v.x, b, e.nx, e.ny * (e.nz * e.nc));
    SizeProduct(e);
  }

  lemma SpatialBelowVolume(e: Extent, v: Voxel)
    requires Inside(e, v)
    ensures 0 <= Spatial(e, v) < Volume(e)
  {
    var b := v.y + e.ny * v.z;
    MixedRadixBound(v.y, v.z, e.ny, e.nz);
    MixedRadixBound(v.x, b, e.nx, e.ny * e.nz);
    assert e.nx * (e.ny * e.nz) == Volume(e);
  }

  lemma SizeProduct(e: Extent)
    ensures Size(e) == e.nx * (e.ny * (e.nz * e.nc))
  {
    assert e.nx * (e.ny * (e.nz * e.nc)) == (e.nx * (e.ny * e.nz)) * e.nc;
  }

  /** Two voxels inside the extent share a position only when they are the same. */
  lemma PosInjective(e: Extent, v: Voxel, w: Voxel)
    requires Inside(e, v) && Inside(e, w) && Pos(e, v) == Pos(e, w)
    ensures v == w
  {
    MixedRadixUnique(v.x, v.y + e.ny * (v.z + e.nz * v.c), w.x, w.y + e.ny * (w.z + e.nz * w.c), e.nx);
    MixedRadixUnique(v.y, v.z + e.nz * v.c, w.y, w.z + e.nz * w.c, e.ny);
    MixedRadixUnique(v.z, v.c, w.z, w.c, e.nz);
  }

  lemma DecodeInside(e: Extent, p: int)
    requires 0 <= p < Size(e)
    ensures Inside(e, Decode(e, p)) && Pos(e, Decode(e, p)) == p
  {
    DecodeRecomposes(e, p);
    DecodeChannel(e, p);
  }

  lemma DecodeRecomposes(e: Extent, p: int)
    requires 0 <= p < Size(e)
    ensures Pos(e, Decode(e, p)) == p
    ensures 0 <= Decode(e, p).x < e.nx && 0 <= Decode(e, p).y < e.ny && 0 <= Decode(e, p).z < e.nz
    ensures 0 <= Decode(e, p).c
  {
    var q := p / e.nx;
    var r := q / e.ny;
    Digits(p, e.nx);
    Digits(q, e.ny);
    Digits(r, e.nz);
    DigitsCompose(Decode(e, p), e, q, r, p);
  }

  lemma DecodeChannel(e: Extent, p: int)
    requires 0 <= p < Size(e)
    ensures Decode(e, p).c < e.nc
  {
    var q := p / e.nx;
    var r := q / e.ny;
    Digits(p, e.nx);
    Digits(q, e.ny);
    Digits(r, e.nz);
    if r / e.nz >= e.nc {
      ChannelBound(e, r / e.nz, r, q, p);
    }
  }

  lemma DigitsCompose(v: Voxel, e: Extent, q: int, r: int, p: int)
    requires v.z + e.nz * v.c == r && v.y + e.ny * r == q && v.x + e.nx * q == p
    ensures Pos(e, v) == p
  {
  }

  /** A channel number at or past nc would put the position past the end. */
  lemma ChannelBound(e: Extent, c: int, r: int, q: int, p: int)
    requires e.nc <= c && e.nz * c <= r && e.ny * r <= q && e.nx * q <= p
    ensures Size(e) <= p
  {
    MulMonotone(e.nz, e.nc, c);
    MulMonotone(e.ny, e.nz * e.nc, r);
    MulMonotone(e.nx, e.ny * (e.nz * e.nc), q);
    assert e.nx * (e.ny * (e.nz * e.nc)) == Size(e);
  }

  /** Euclidean division by a positive number splits off the last digit. */
  lemma Digits(p: int, n: int)
    requires 0 <= p && 0 < n
    ensures p == p % n + n * (p / n) && 0 <= p % n < n && 0 <= p / n
  {
  }

  /** Decoding the position of a voxel inside the extent gives the voxel back. */
  lemma DecodePos(e: Extent, v: Voxel)
    requires Inside(e, v)
    ensures 0 <= Pos(e, v) < Size(e) && Decode(e, Pos(e, v)) == v
  {
    PosInside(e, v);
    DecodeInside(e, Pos(e, v));
    PosInjective(e, Decode(e, Pos(e, v)), v);
  }

  /** Moving by (dx, dy) within the same slice and channel moves the position by dx + dy*nx. */
  lemma PosShift(e: Extent, v: Voxel, dx: int, dy: int)
    ensures Pos(e, v.(x := v.x + dx, y := v.y + dy)) == Pos(e, v) + dx + dy * e.nx
    ensures Spatial(e, v.(x := v.x + dx, y := v.y + dy)) == Spatial(e, v) + dx + dy * e.nx
  {
  }

  /** The position as the source writes it out: x + nx*y + nxy*z + nxyz*c. */
  lemma PosExpanded(e: Extent, v: Voxel)
    ensures Pos(e, v) == v.x + e.nx * v.y + (e.nx * e.ny) * v.z + (e.nx * e.ny * e.nz) * v.c
  {
    assert e.nx * (v.y + e.ny * (v.z + e.nz * v.c)) == e.nx * v.y + e.nx * (e.ny * (v.z + e.nz * v.c));
    assert e.nx * (e.ny * (v.z + e.nz * v.c)) == (e.nx * e.ny) * (v.z + e.nz * v.c);
    assert (e.nx * e.ny) * (v.z + e.nz * v.c) == (e.nx * e.ny) * v.z + (e.nx * e.ny) * (e.nz * v.c);
    assert (e.nx * e.ny) * (e.nz * v.c) == (e.nx * e.ny * e.nz) * v.c;
  }

  // ------------------------------------------------------------------ carries of the loop nests

  lemma CarryX(e: Extent, y: int, z: int, c: int)
    ensures Pos(e, Voxel(e.nx, y, z, c)) == Pos(e, Voxel(0, y + 1, z, c))
  {
  }

  lemma CarryY(e: Extent, z: int, c: int)
    ensures Pos(e, Voxel(0, e.ny, z, c)) == Pos(e, Voxel(0, 0, z + 1, c))
  {
  }

  lemma CarryZ(e: Extent, c: int)
    ensures Pos(e, Voxel(0, 0, e.nz, c)) == Pos(e, Voxel(0, 0, 0, c + 1))
  {
  }

  lemma PosEnd(e: Extent)
    ensures Pos(e, Voxel(0, 0, 0, e.nc)) == Size(e)
    ensures Pos(e, Voxel(0, 0, e.nz, 0)) == Volume(e)
  {
  }

  // ------------------------------------------------------------------ visiting order

  /** v comes before w when the loop nests visit channel, then z, then y, then x. */
  predicate Before(v: Voxel, w: Voxel) {
    || v.c < w.c
    || (v.c == w.c && v.z < w.z)
    || (v.c == w.c && v.z == w.z && v.y < w.y)
    || (v.c == w.c && v.z == w.z && v.y == w.y && v.x < w.x)
  }

  /** A larger leading part outweighs any last digit. */
  lemma MixedRadixLess(a: int, b: int, a': int, b': int, n: int)
    requires 0 <= a < n && 0 <= a' < n && b < b'
    ensures a + n * b < a' + n * b'
  {
    MulMonotone(n, b + 1, b');
  }

  /** The visiting order is the order of the flat positions. */
  lemma BeforePosLess(e: Extent, v: Voxel, w: Voxel)
    requires Inside(e, v) && Before(v, w)
    requires 0 <= w.x <= e.nx && 0 <= w.y <= e.ny && 0 <= w.z <= e.nz && 0 <= w.c
    ensures Pos(e, v) < Pos(e, w)
  {
    var bv := v.z + e.nz * v.c;
    var bw := w.z + e.nz * w.c;
    if v.c < w.c {
      if w.z < e.nz {
        MixedRadixLess(v.z, v.c, w.z, w.c, e.nz);
      } else {
        MixedRadixLess(v.z, v.c, 0, w.c, e.nz);
      }
      assert bv < bw;
    }
    if bv < bw {
      if w.y < e.ny {
        MixedRadixLess(v.y, bv, w.y, bw, e.ny);
      } else {
        MixedRadixLess(v.y, bv, 0, bw, e.ny);
      }
    }
    var av := v.y + e.ny * bv;
    var aw := w.y + e.ny * bw;
    assert av < aw || (av == aw && v.x < w.x);
    if av < aw {
      if w.x < e.nx {
        MixedRadixLess(v.x, av, w.x, aw, e.nx);
      } else {
        MixedRadixLess(v.x, av, 0, aw, e.nx);
      }
    }
  }

  /** A voxel position of channel 0. */
  predicate InPlane(e: Extent, v: Voxel) {
    0 <= v.x < e.nx && 0 <= v.y < e.ny && 0 <= v.z < e.nz && v.c == 0
  }

  /** The visiting order of the voxel loops is the order of the positions in a one-channel array. */
  lemma SpatialBefore(e: Extent, v: Voxel, w: Voxel)
    requires InPlane(e, v) && InPlane(e, w) && Before(v, w)
    ensures Spatial(e, v) < Spatial(e, w)
  {
    var f := e.(nc := 1);
    assert Pos(f, v) == Spatial(e, v) && Pos(f, w) == Spatial(e, w);
    BeforePosLess(f, v, w);
  }

  lemma SpatialInside(e: Extent, v: Voxel)
    requires InPlane(e, v)
    ensures 0 <= Spatial(e, v) < Volume(e)
  {
    var f := e.(nc := 1);
    assert Inside(f, v) && Pos(f, v) == Spatial(e, v);
    PosInside(f, v);
  }
}

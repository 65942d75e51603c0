/**
 * CoilSensitivitiesVector: a vector of coil-sensitivity maps, one complex-float
 * image per slice. It looks a map up by the tag of an image, spreads a combined
 * image over the coil channels (forward), combines coil images with the conjugate
 * maps (backward), and computes the maps from coil images (calculate).
 *
 * Images are stored x fastest, then y, z and channel: with V = nx*ny*nz voxels,
 * sample q of channel c sits at q + V*c. The z, y and x loops of one channel
 * therefore walk the positions V*c .. V*c + V - 1 in order, and the methods below
 * walk them with one counter.
 */
module CoilSensitivities {
  import opened Complexes
  import opened Errors
  import opened Ismrmrd
  import opened Stores
  import opened KSpace
  import opened Images
  import opened Grid
  import opened CoilMaps
  import opened Acquisitions
  import opened CoilImages

  // ------------------------------------------------------------------ image shape

  /** The extent an image header announces. */
  function ExtentOf(h: ImageHeader): Extent {
    Extent(h.matrixSizeX, h.matrixSizeY, h.matrixSizeZ, h.channels)
  }

  /** The ISMRMRD image invariant: the data hold exactly the samples the header announces. */
  predicate Consistent(im: Image) {
    |im.data| == Size(ExtentOf(im.head))
  }

  /** The same number of voxels along x, y and z. */
  predicate SameGrid(a: ImageHeader, b: ImageHeader) {
    a.matrixSizeX == b.matrixSizeX && a.matrixSizeY == b.matrixSizeY && a.matrixSizeZ == b.matrixSizeZ
  }

  /** Images with the same dimensions have the same extent. */
  lemma SameDims(a: Image, b: Image)
    requires Dims(a) == Dims(b)
    ensures ExtentOf(a.head) == ExtentOf(b.head)
  {
    assert Dims(a)[0] == Dims(b)[0] && Dims(a)[1] == Dims(b)[1];
    assert Dims(a)[2] == Dims(b)[2] && Dims(a)[3] == Dims(b)[3];
  }

  /** Sample q of channel c lies inside an array of n channels. */
  lemma ChannelIndex(V: nat, n: nat, q: int, c: int)
    requires 0 <= q < V && 0 <= c < n
    ensures 0 <= q + V * c < V * n
  {
    MixedRadixBound(q, c, V, n);
  }

  // ------------------------------------------------------------------ get_csm_as_cfimage

  /** get_csm_as_cfimage(i): the map at position i, refused unless it holds complex floats. */
  function CsmAsImage(maps: Store<Image>, i: int): (r: Result<Image>)
    ensures r.Ok? <==> maps.At(i).Ok? && maps.At(i).value.head.dataType == CXFLOAT
    ensures r.Ok? ==> r == maps.At(i)
    ensures maps.At(i).Ok? && r.Err? ==> r == Err(WrongType)
  {
    var im :- maps.At(i);
    if im.head.dataType != CXFLOAT then Err(WrongType) else Ok(im)
  }

  /**
   * The position the search tries at step i: offset + i, an int, is converted to
   * unsigned int for the remainder by items().
   */
  function Slot(offset: int, i: int, n: nat): (k: int)
    requires n > 0
    ensures 0 <= k < n
  {
    ((offset + i) % 0x1_0000_0000) % n
  }

  /** A map serves an image tag when its slice is the tag's and its contrast is 0. */
  predicate Serves(coilmap: Image, tag: seq<int>)
    requires |tag| == NUM_KSPACE_DIMS
  {
    var t := TagFromImage(coilmap.head);
    t[1] == tag[1] && t[2] == 0
  }

  /** The search for a map from step i on. */
  function SearchFrom(maps: Store<Image>, tag: seq<int>, offset: int, i: nat): Result<Image>
    requires |tag| == NUM_KSPACE_DIMS
    decreases |maps.items| - i
  {
    if i >= |maps.items| then Err(NotFound)
    else
      var csm :- CsmAsImage(maps, Slot(offset, i, |maps.items|));
      if Serves(csm, tag) then Ok(csm) else SearchFrom(maps, tag, offset, i + 1)
  }

  /** get_csm_as_cfimage(tag, offset). */
  function CoilmapFor(maps: Store<Image>, tag: seq<int>, offset: int): Result<Image>
    requires |tag| == NUM_KSPACE_DIMS
  {
    SearchFrom(maps, tag, offset, 0)
  }

  /** The map tried at step j is read, is complex-float and does not serve the tag. */
  predicate Passed(maps: Store<Image>, tag: seq<int>, offset: int, j: int)
    requires |tag| == NUM_KSPACE_DIMS && |maps.items| > 0
  {
    var r := CsmAsImage(maps, Slot(offset, j, |maps.items|));
    r.Ok? && !Serves(r.value, tag)
  }

  /**
   * A map found from step i on is the first serving one: it sits at the slot of
   * some step j, and every step from i to j passed over its map.
   */
  lemma {:induction false} SearchFound(maps: Store<Image>, tag: seq<int>, offset: int, i: nat)
    requires |tag| == NUM_KSPACE_DIMS && SearchFrom(maps, tag, offset, i).Ok?
    ensures |maps.items| > 0
    ensures Serves(SearchFrom(maps, tag, offset, i).value, tag)
    ensures SearchFrom(maps, tag, offset, i).value.head.dataType == CXFLOAT
    ensures exists j :: i <= j < |maps.items|
              && CsmAsImage(maps, Slot(offset, j, |maps.items|)) == SearchFrom(maps, tag, offset, i)
              && forall k :: i <= k < j ==> Passed(maps, tag, offset, k)
    decreases |maps.items| - i
  {
    var n := |maps.items|;
    var csm := CsmAsImage(maps, Slot(offset, i, n));
    if !Serves(csm.value, tag) {
      SearchFound(maps, tag, offset, i + 1);
      var j :| i + 1 <= j < n
              && CsmAsImage(maps, Slot(offset, j, n)) == SearchFrom(maps, tag, offset, i + 1)
              && forall k :: i + 1 <= k < j ==> Passed(maps, tag, offset, k);
      assert forall k :: i <= k < j ==> Passed(maps, tag, offset, k);
    }
  }

  /** The search from step i on ends in NotFound exactly when every remaining step passes over its map. */
  lemma {:induction false} SearchNotFound(maps: Store<Image>, tag: seq<int>, offset: int, i: nat)
    requires |tag| == NUM_KSPACE_DIMS && i <= |maps.items|
    ensures SearchFrom(maps, tag, offset, i) == Err(NotFound)
            <==> forall k :: i <= k < |maps.items| ==> Passed(maps, tag, offset, k)
    decreases |maps.items| - i
  {
    if i < |maps.items| {
      SearchNotFound(maps, tag, offset, i + 1);
      var r := CsmAsImage(maps, Slot(offset, i, |maps.items|));
      if r.Err? {
        assert SearchFrom(maps, tag, offset, i) == Err(r.error);
        assert r.error != NotFound && !Passed(maps, tag, offset, i);
      } else if Serves(r.value, tag) {
        assert !Passed(maps, tag, offset, i);
      } else {
        assert SearchFrom(maps, tag, offset, i) == SearchFrom(maps, tag, offset, i + 1);
      }
    }
  }

  /** The search never looks at the contrast of the tag. */
  lemma {:induction false} SearchIgnoresContrast(maps: Store<Image>, tag: seq<int>, offset: int, i: nat, contrast: int)
    requires |tag| == NUM_KSPACE_DIMS
    ensures SearchFrom(maps, tag[2 := contrast], offset, i) == SearchFrom(maps, tag, offset, i)
    decreases |maps.items| - i
  {
    if i < |maps.items| {
      SearchIgnoresContrast(maps, tag, offset, i + 1, contrast);
      var csm := CsmAsImage(maps, Slot(offset, i, |maps.items|));
      if csm.Ok? {
        assert Serves(csm.value, tag[2 := contrast]) == Serves(csm.value, tag);
      }
    }
  }

  /** From an offset that leaves room for the n steps, step i tries position (offset + i) mod n. */
  lemma SlotNoWrap(offset: int, i: int, n: nat)
    requires n > 0 && 0 <= offset && 0 <= i < n && offset + n <= 0x1_0000_0000
    ensures Slot(offset, i, n) == (offset + i) % n
  {
  }

  /** From such an offset, every position is tried at some step. */
  lemma SlotsCover(offset: int, n: nat, k: int)
    requires n > 0 && 0 <= offset && offset + n <= 0x1_0000_0000 && 0 <= k < n
    ensures exists i :: 0 <= i < n && Slot(offset, i, n) == k
  {
    var r := offset % n;
    var b := offset / n;
    assert offset == r + n * b;
    var i := if r <= k then k - r else k - r + n;
    if r <= k {
      assert offset + i == k + n * b;
      DivModDigits(k, b, n);
    } else {
      assert offset + i == k + n * (b + 1);
      DivModDigits(k, b + 1, n);
    }
    SlotNoWrap(offset, i, n);
    assert Slot(offset, i, n) == k;
  }

  /**
   * From such an offset, the lookup throws NotFound exactly when every map can be
   * read, is complex-float and serves another slice or a non-zero contrast.
   */
  lemma CoilmapNotFoundIff(maps: Store<Image>, tag: seq<int>, offset: int)
    requires |tag| == NUM_KSPACE_DIMS && 0 <= offset && offset + |maps.items| <= 0x1_0000_0000
    ensures CoilmapFor(maps, tag, offset) == Err(NotFound)
            <==> forall k :: 0 <= k < |maps.items| ==> CsmAsImage(maps, k).Ok? && !Serves(CsmAsImage(maps, k).value, tag)
  {
    var n := |maps.items|;
    SearchNotFound(maps, tag, offset, 0);
    if CoilmapFor(maps, tag, offset) == Err(NotFound) {
      forall k | 0 <= k < n
        ensures CsmAsImage(maps, k).Ok? && !Serves(CsmAsImage(maps, k).value, tag)
      {
        SlotsCover(offset, n, k);
        var i :| 0 <= i < n && Slot(offset, i, n) == k;
        assert Passed(maps, tag, offset, i);
      }
    }
  }

  // ------------------------------------------------------------------ forward, one image

  /** forward's samples: sample p is the combined image's voxel p mod V times the map's sample p. */
  function SpreadData(s: seq<Complex>, m: seq<Complex>, V: nat): (r: seq<Complex>)
    requires V <= |s| && (V > 0 || |m| == 0)
    ensures |r| == |m|
  {
    seq(|m|, p requires 0 <= p < |m| => Mul(s[p % V], m[p]))
  }

  /**
   * coilchannels_from_combined_image for one image: a copy of the map that takes
   * the image's header and the map's number of channels. The loops read the image
   * with the map's x, y and z sizes; the model leaves images of another grid, or
   * with fewer than one channel's samples, undefined.
   */
  function Spread(src: Image, coilmap: Image): (r: Result<Image>)
    ensures r.Ok? <==> Consistent(coilmap) && SameGrid(src.head, coilmap.head) && Volume(ExtentOf(coilmap.head)) <= |src.data|
    ensures r.Ok? ==> r.value.head == src.head.(channels := coilmap.head.channels) && Consistent(r.value)
    ensures r.Ok? ==> TagFromImage(r.value.head) == TagFromImage(src.head)
  {
    var e := ExtentOf(coilmap.head);
    if !Consistent(coilmap) || !SameGrid(src.head, coilmap.head) || |src.data| < Volume(e) then Err(Undefined)
    else
      assert Volume(e) == 0 ==> Size(e) == 0;
      Ok(Image(src.head.(channels := coilmap.head.channels), SpreadData(src.data, coilmap.data, Volume(e))))
  }

  /** Sample (x, y, z, c) of forward's image is voxel (x, y, z) of the combined image times the map's sample (x, y, z, c). */
  lemma SpreadAtVoxel(src: Image, coilmap: Image, v: Voxel)
    requires Spread(src, coilmap).Ok? && Inside(ExtentOf(coilmap.head), v)
    ensures 0 <= Spatial(ExtentOf(coilmap.head), v) < |src.data|
    ensures 0 <= Pos(ExtentOf(coilmap.head), v) < |coilmap.data|
    ensures Spread(src, coilmap).value.data[Pos(ExtentOf(coilmap.head), v)]
            == Mul(src.data[Spatial(ExtentOf(coilmap.head), v)], coilmap.data[Pos(ExtentOf(coilmap.head), v)])
  {
    var e := ExtentOf(coilmap.head);
    PosInside(e, v);
    PosExpanded(e, v);
    PosExpanded(e, v.(c := 0));
    DivModDigits(Spatial(e, v), v.c, Volume(e));
  }

  /** The loops of one channel: positions base .. base + V - 1 get their forward samples. */
  method SpreadChannel(s: seq<Complex>, m: seq<Complex>, V: nat, nc: nat, c: nat, base: nat,
                       a: array<Complex>, ghost spread: seq<Complex>)
    requires V <= |s| && |m| == V * nc && a.Length == |m| && c < nc && base == V * c
    requires V > 0 || |m| == 0
    requires spread == SpreadData(s, m, V)
    requires forall p :: 0 <= p < base ==> a[p] == spread[p]
    modifies a
    ensures base + V <= |m|
    ensures forall p :: 0 <= p < base + V ==> a[p] == spread[p]
  {
    MulMonotone(V, c + 1, nc);
    var q := 0;
    while q < V
      invariant 0 <= q <= V
      invariant forall p :: 0 <= p < base + q ==> a[p] == spread[p]
    {
      DivModDigits(q, c, V);
      a[base + q] := Mul(s[q], m[base + q]);
      q := q + 1;
    }
  }

  /** The image forward appends for one combined image and its map. */
  method SpreadImage(src: Image, coilmap: Image) returns (dst: Image)
    requires Spread(src, coilmap).Ok?
    ensures Spread(src, coilmap) == Ok(dst)
  {
    var e := ExtentOf(coilmap.head);
    var V := Volume(e);
    assert V == 0 ==> Size(e) == 0;
    ghost var spread := SpreadData(src.data, coilmap.data, V);
    var a := new Complex[|coilmap.data|](k requires 0 <= k < |coilmap.data| => coilmap.data[k]);
    var c := 0;
    var base := 0;
    while c < e.nc
      invariant 0 <= c <= e.nc && base == V * c
      invariant forall p :: 0 <= p < base ==> a[p] == spread[p]
    {
      SpreadChannel(src.data, coilmap.data, V, e.nc, c, base, a, spread);
      c := c + 1;
      base := base + V;
    }
    assert a[..] == spread;
    dst := Image(src.head.(channels := coilmap.head.channels), a[..]);
  }

  // ------------------------------------------------------------------ backward, one image

  function ChannelSample(data: seq<Complex>, V: nat, n: nat, q: int, c: int): Complex
    requires 0 <= q < V && V * n <= |data| && 0 <= c < n
  {
    ChannelIndex(V, n, q, c);
    data[q + V * c]
  }

  /** The samples of voxel q in channels 0 .. n-1. */
  function ChannelSamples(data: seq<Complex>, V: nat, n: nat, q: int): (cs: seq<Complex>)
    requires 0 <= q < V && V * n <= |data|
    ensures |cs| == n
  {
    seq(n, c requires 0 <= c < n => ChannelSample(data, V, n, q, c))
  }

  /** The samples added in order. */
  function Sum(cs: seq<Complex>): Complex {
    if |cs| == 0 then Zero else Add(Sum(cs[..|cs| - 1]), cs[|cs| - 1])
  }

  /** The samples of voxel q in channels 0 .. n-1, added in order. */
  function ChannelSum(data: seq<Complex>, V: nat, n: nat, q: int): Complex
    requires 0 <= q < V && V * n <= |data|
    decreases n
  {
    if n == 0 then Zero
    else
      MulMonotone(V, n - 1, n);
      Add(ChannelSum(data, V, n - 1, q), ChannelSample(data, V, n, q, n - 1))
  }

  /** The channel sum is the sum of the channel samples. */
  lemma {:induction false} ChannelSumIsSum(data: seq<Complex>, V: nat, n: nat, q: int)
    requires 0 <= q < V && V * n <= |data|
    ensures ChannelSum(data, V, n, q) == Sum(ChannelSamples(data, V, n, q))
    decreases n
  {
    if n > 0 {
      MulMonotone(V, n - 1, n);
      ChannelSumIsSum(data, V, n - 1, q);
      assert ChannelSamples(data, V, n, q)[..n - 1] == ChannelSamples(data, V, n - 1, q);
    }
  }

  /** conj(map) times image, sample by sample. */
  function Products(s: seq<Complex>, m: seq<Complex>): (r: seq<Complex>)
    requires |m| <= |s|
    ensures |r| == |m|
  {
    seq(|m|, k requires 0 <= k < |m| => Mul(Conj(m[k]), s[k]))
  }

  /** backward's voxels: the sum over the channels of conj(map) times image. */
  function CombinedData(s: seq<Complex>, m: seq<Complex>, V: nat, nc: nat): (r: seq<Complex>)
    requires |s| == |m| == V * nc
    ensures |r| == V
  {
    seq(V, q requires 0 <= q < V => ChannelSum(Products(s, m), V, nc, q))
  }

  /**
   * combine_images_with_coilmaps for one image and its map of the same
   * dimensions: one channel, with the image's header.
   */
  function Combined(src: Image, coilmap: Image): (r: Result<Image>)
    ensures r.Ok? <==> Consistent(coilmap) && Consistent(src) && Dims(src) == Dims(coilmap)
    ensures r.Ok? ==> r.value.head == src.head.(channels := 1) && |r.value.data| == Volume(ExtentOf(coilmap.head))
  {
    var e := ExtentOf(coilmap.head);
    if !Consistent(coilmap) || !Consistent(src) || Dims(src) != Dims(coilmap) then Err(Undefined)
    else
      SameDims(src, coilmap);
      Ok(Image(src.head.(channels := 1), CombinedData(src.data, coilmap.data, Volume(e), e.nc)))
  }

  /** The channels of a voxel in storage order are the channel samples at its position in one channel. */
  lemma ChannelsAsSamples(data: seq<Complex>, e: Extent, v: Voxel)
    requires |data| == Size(e) && InPlane(e, v)
    ensures 0 <= Spatial(e, v) < Volume(e)
    ensures ChannelSamples(data, Volume(e), e.nc, Spatial(e, v)) == Channels(data, e, v)
  {
    SpatialInside(e, v);
    forall c | 0 <= c < e.nc
      ensures ChannelSamples(data, Volume(e), e.nc, Spatial(e, v))[c] == Channels(data, e, v)[c]
    {
      PosExpanded(e, v.(c := c));
      PosExpanded(e, v);
    }
  }

  /** Voxel (x, y, z) of backward's image is the sum over the channels of conj(map) times image there. */
  lemma CombinedAtVoxel(src: Image, coilmap: Image, v: Voxel)
    requires Combined(src, coilmap).Ok? && InPlane(ExtentOf(coilmap.head), v)
    ensures 0 <= Spatial(ExtentOf(coilmap.head), v) < Volume(ExtentOf(coilmap.head))
    ensures Combined(src, coilmap).value.data[Spatial(ExtentOf(coilmap.head), v)]
            == Sum(Channels(Products(src.data, coilmap.data), ExtentOf(coilmap.head), v))
  {
    var e := ExtentOf(coilmap.head);
    SameDims(src, coilmap);
    ChannelsAsSamples(Products(src.data, coilmap.data), e, v);
    ChannelSumIsSum(Products(src.data, coilmap.data), Volume(e), e.nc, Spatial(e, v));
  }

  /** The accumulation loops of one channel: every voxel adds its product of channel c. */
  method AddChannel(ghost products: seq<Complex>, V: nat, c: nat, base: nat, prod: array<Complex>, acc: array<Complex>)
    requires prod != acc && prod[..] == products && acc.Length == V && base == V * c && V * (c + 1) <= |products|
    requires V * c <= |products|
    requires forall q :: 0 <= q < V ==> acc[q] == ChannelSum(products, V, c, q)
    modifies acc
    ensures forall q :: 0 <= q < V ==> acc[q] == ChannelSum(products, V, c + 1, q)
  {
    var q := 0;
    while q < V
      invariant 0 <= q <= V
      invariant forall j :: 0 <= j < q ==> acc[j] == ChannelSum(products, V, c + 1, j)
      invariant forall j :: q <= j < V ==> acc[j] == ChannelSum(products, V, c, j)
    {
      acc[q] := Add(acc[q], prod[base + q]);
      q := q + 1;
    }
  }

  /** The loop that conjugates the copy of the map in place. */
  method ConjugateAll(prod: array<Complex>)
    modifies prod
    ensures forall j :: 0 <= j < prod.Length ==> prod[j] == Conj(old(prod[j]))
  {
    var k := 0;
    while k < prod.Length
      invariant 0 <= k <= prod.Length
      invariant forall j :: 0 <= j < k ==> prod[j] == Conj(old(prod[j]))
      invariant forall j :: k <= j < prod.Length ==> prod[j] == old(prod[j])
    {
      prod[k] := Conj(prod[k]);
      k := k + 1;
    }
  }

  /** The loop that multiplies the conjugated map by the image, sample by sample. */
  method MultiplyAll(prod: array<Complex>, s: seq<Complex>)
    requires prod.Length <= |s|
    modifies prod
    ensures forall j :: 0 <= j < prod.Length ==> prod[j] == Mul(old(prod[j]), s[j])
  {
    var k := 0;
    while k < prod.Length
      invariant 0 <= k <= prod.Length
      invariant forall j :: 0 <= j < k ==> prod[j] == Mul(old(prod[j]), s[j])
      invariant forall j :: k <= j < prod.Length ==> prod[j] == old(prod[j])
    {
      prod[k] := Mul(prod[k], s[k]);
      k := k + 1;
    }
  }

  /** The image backward appends for one coil image and its map. */
  method CombineImage(src: Image, coilmap: Image) returns (dst: Image)
    requires Combined(src, coilmap).Ok?
    ensures Combined(src, coilmap) == Ok(dst)
  {
    var e := ExtentOf(coilmap.head);
    SameDims(src, coilmap);
    var V := Volume(e);
    ghost var products := Products(src.data, coilmap.data);
    var prod := ProductsOf(src.data, coilmap.data);
    var acc := SumChannels(products, prod, V, e.nc);
    assert acc[..] == CombinedData(src.data, coilmap.data, V, e.nc) by {
      forall q | 0 <= q < V ensures acc[q] == CombinedData(src.data, coilmap.data, V, e.nc)[q] { }
    }
    dst := Image(src.head.(channels := 1), acc[..]);
  }

  /** A copy of the map, conjugated and multiplied with the image, sample by sample. */
  method ProductsOf(s: seq<Complex>, m: seq<Complex>) returns (prod: array<Complex>)
    requires |m| <= |s|
    ensures fresh(prod) && prod[..] == Products(s, m)
  {
    var n := |m|;
    prod := new Complex[n](k requires 0 <= k < n => m[k]);
    ConjugateAll(prod);
    MultiplyAll(prod, s);
    assert prod[..] == Products(s, m) by {
      forall j | 0 <= j < n ensures prod[j] == Products(s, m)[j] { }
    }
  }

  /** The destination image, set to zero and added to channel by channel: voxel q gets the sum over the channels. */
  method SumChannels(ghost products: seq<Complex>, prod: array<Complex>, V: nat, nc: nat) returns (acc: array<Complex>)
    requires prod[..] == products && V * nc <= |products|
    ensures fresh(acc) && acc.Length == V
    ensures forall q :: 0 <= q < V ==> acc[q] == ChannelSum(products, V, nc, q)
  {
    acc := new Complex[V](_ => Zero);
    var c := 0;
    var base := 0;
    while c < nc
      invariant 0 <= c <= nc && base == V * c && V * c <= |products|
      invariant prod[..] == products
      invariant forall q :: 0 <= q < V ==> acc[q] == ChannelSum(products, V, c, q)
    {
      MulMonotone(V, c + 1, nc);
      AddChannel(products, V, c, base, prod, acc);
      c := c + 1;
      base := base + V;
    }
  }

  // ------------------------------------------------------------------ backward after forward

  /** conj(b) * (a * b) for every sample b. */
  function Reweighted(cs: seq<Complex>, a: Complex): (r: seq<Complex>)
    ensures |r| == |cs|
  {
    seq(|cs|, c requires 0 <= c < |cs| => Mul(Conj(cs[c]), Mul(a, cs[c])))
  }

  /** conj(b) * (a * b) == a * |b|^2. */
  lemma ConjScaled(a: Complex, b: Complex)
    ensures Mul(Conj(b), Mul(a, b)) == Mul(a, Complex(AbsSq(b), 0.0))
  {
    var lhs := Mul(Conj(b), Mul(a, b));
    assert lhs.re == b.re * (a.re * b.re - a.im * b.im) + b.im * (a.re * b.im + a.im * b.re);
    assert lhs.re == a.re * (b.re * b.re + b.im * b.im);
    assert lhs.im == b.re * (a.re * b.im + a.im * b.re) - b.im * (a.re * b.re - a.im * b.im);
    assert lhs.im == a.im * (b.re * b.re + b.im * b.im);
  }

  /** a * x + a * y == a * (x + y) for reals x and y. */
  lemma ScaleAdds(a: Complex, x: real, y: real)
    ensures Add(Mul(a, Complex(x, 0.0)), Mul(a, Complex(y, 0.0))) == Mul(a, Complex(x + y, 0.0))
  {
    assert a.re * x + a.re * y == a.re * (x + y);
    assert a.im * x + a.im * y == a.im * (x + y);
  }

  /** The sum over the channels of conj(m) * (a * m) is a times the power of the channels. */
  lemma {:induction false} SumReweighted(cs: seq<Complex>, a: Complex)
    ensures Sum(Reweighted(cs, a)) == Mul(a, Complex(Power(cs), 0.0))
  {
    var n := |cs|;
    if n == 0 {
      assert Mul(a, Complex(0.0, 0.0)) == Zero;
    } else {
      var prefix := cs[..n - 1];
      assert Reweighted(cs, a)[..n - 1] == Reweighted(prefix, a);
      SumReweighted(prefix, a);
      ConjScaled(a, cs[n - 1]);
      ScaleAdds(a, Power(prefix), AbsSq(cs[n - 1]));
    }
  }

  /**
   * backward undoes forward up to the power of the maps: each voxel of the image
   * comes back multiplied by the sum over the channels of |map|^2, and unchanged
   * where that sum is 1.
   */
  lemma CombineAfterSpread(src: Image, coilmap: Image)
    requires Spread(src, coilmap).Ok?
    ensures Combined(Spread(src, coilmap).value, coilmap).Ok?
    ensures Combined(Spread(src, coilmap).value, coilmap).value.head == src.head.(channels := 1)
    ensures forall q :: 0 <= q < Volume(ExtentOf(coilmap.head)) ==>
              var power := Power(ChannelSamples(coilmap.data, Volume(ExtentOf(coilmap.head)), coilmap.head.channels, q));
              && Combined(Spread(src, coilmap).value, coilmap).value.data[q] == Mul(src.data[q], Complex(power, 0.0))
              && (power == 1.0 ==> Combined(Spread(src, coilmap).value, coilmap).value.data[q] == src.data[q])
  {
    var e := ExtentOf(coilmap.head);
    var V := Volume(e);
    var spread := Spread(src, coilmap).value;
    assert Dims(spread) == Dims(coilmap);
    var back := Combined(spread, coilmap).value;
    assert back.data == CombinedData(spread.data, coilmap.data, V, e.nc);
    forall q | 0 <= q < V
      ensures back.data[q] == Mul(src.data[q], Complex(Power(ChannelSamples(coilmap.data, V, e.nc, q)), 0.0))
      ensures back.data[q] == Mul(src.data[q], One) ==> back.data[q] == src.data[q]
    {
      SpreadThenCombineAt(src.data, coilmap.data, V, e.nc, q);
    }
  }

  /** One voxel of backward after forward: the sum over the channels of conj(m) * (s * m). */
  lemma SpreadThenCombineAt(s: seq<Complex>, m: seq<Complex>, V: nat, nc: nat, q: int)
    requires |m| == V * nc && V <= |s| && 0 <= q < V
    ensures ChannelSum(Products(SpreadData(s, m, V), m), V, nc, q) == Mul(s[q], Complex(Power(ChannelSamples(m, V, nc, q)), 0.0))
  {
    var products := Products(SpreadData(s, m, V), m);
    var cs := ChannelSamples(m, V, nc, q);
    var ps := ChannelSamples(products, V, nc, q);
    forall c | 0 <= c < nc
      ensures ps[c] == Reweighted(cs, s[q])[c]
    {
      ChannelIndex(V, nc, q, c);
      DivModDigits(q, c, V);
    }
    assert ps == Reweighted(cs, s[q]);
    SumReweighted(cs, s[q]);
    ChannelSumIsSum(products, V, nc, q);
  }

  // ------------------------------------------------------------------ the containers

  /** forward's image i: the combined image spread with the map its tag finds from offset i. */
  function ForwardOne(maps: Store<Image>, combined: Store<Image>, i: int): Result<Image> {
    var src :- combined.At(i);
    if src.head.dataType != CXFLOAT then Err(Undefined)
    else
      var coilmap :- CoilmapFor(maps, TagFromImage(src.head), i);
      Spread(src, coilmap)
  }

  /** forward's images 0 .. n-1, each as ForwardOne computes it. */
  function ForwardSteps(maps: Store<Image>, combined: Store<Image>, n: nat): (r: seq<Result<Image>>)
    ensures |r| == n && forall k :: 0 <= k < n ==> r[k] == ForwardOne(maps, combined, k)
  {
    if n == 0 then [] else ForwardSteps(maps, combined, n - 1) + [ForwardOne(maps, combined, n - 1)]
  }

  /**
   * forward(img, combined_img): Err(e) when it throws before the output is touched;
   * otherwise the images appended to the cleared output and the exception, if any.
   * The consistency check passes whenever image 0 can be read.
   */
  function ForwardResult(maps: Store<Image>, combined: Store<Image>): Result<Partial> {
    if |combined.items| != |maps.items| then Err(SizeMismatch)
    else
      var consistent :- DimensionsChecked(combined);
      var first :- combined.At(0);
      if first.head.channels != 1 then Err(SizeMismatch)
      else Ok(Collect(ForwardSteps(maps, combined, |combined.items|), 0, []))
  }

  /** backward's image i: the coil image combined with the map its tag finds from offset i, if the map has the dimensions of image 0. */
  function BackwardOne(maps: Store<Image>, img: Store<Image>, dims: seq<int>, i: int): Result<Image> {
    var src :- img.At(i);
    if src.head.dataType != CXFLOAT then Err(Undefined)
    else
      var coilmap :- CoilmapFor(maps, TagFromImage(src.head), i);
      if dims != Dims(coilmap) then Err(SizeMismatch) else Combined(src, coilmap)
  }

  /** backward's images 0 .. n-1, each as BackwardOne computes it. */
  function BackwardSteps(maps: Store<Image>, img: Store<Image>, dims: seq<int>, n: nat): (r: seq<Result<Image>>)
    ensures |r| == n && forall k :: 0 <= k < n ==> r[k] == BackwardOne(maps, img, dims, k)
  {
    if n == 0 then [] else BackwardSteps(maps, img, dims, n - 1) + [BackwardOne(maps, img, dims, n - 1)]
  }

  /** backward(combined_img, img), in the form of ForwardResult. */
  function BackwardResult(maps: Store<Image>, img: Store<Image>): Result<Partial> {
    if |img.items| != |maps.items| then Err(SizeMismatch)
    else
      var consistent :- DimensionsChecked(img);
      var first :- img.At(0);
      Ok(Collect(BackwardSteps(maps, img, Dims(first), |img.items|), 0, []))
  }

  /**
   * forward throws before touching the output exactly when the counts differ, the
   * combined container is empty, or its image 0 has more than one channel.
   */
  lemma ForwardRefusesIff(maps: Store<Image>, combined: Store<Image>)
    requires combined.WellFormed()
    ensures ForwardResult(maps, combined).Err? <==>
            || |combined.items| != |maps.items|
            || |combined.items| == 0
            || combined.items[combined.Index(0).value].head.channels != 1
  {
    DimensionsCheckedIgnoresImages(combined);
    if |combined.items| > 0 {
      IndexInStorage(combined, 0);
    }
  }

  /**
   * Once forward runs, image k of the output is forward's image k of the input; it
   * throws only at the first input it cannot spread, and otherwise appends one image
   * per combined image.
   */
  lemma ForwardOutput(maps: Store<Image>, combined: Store<Image>)
    requires ForwardResult(maps, combined).Ok?
    ensures var p := ForwardResult(maps, combined).value;
            && |p.items| <= |combined.items|
            && (forall k :: 0 <= k < |p.items| ==> ForwardOne(maps, combined, k) == Ok(p.items[k]))
            && (p.error.None? <==> |p.items| == |combined.items|)
            && (p.error.Some? ==> ForwardOne(maps, combined, |p.items|) == Err(p.error.value))
  {
    var steps := ForwardSteps(maps, combined, |combined.items|);
    CollectIs(steps, 0, []);
    var p := Collect(steps, 0, []);
    assert ForwardResult(maps, combined).value == p;
    forall k | 0 <= k < |p.items| ensures ForwardOne(maps, combined, k) == Ok(p.items[k]) {
      assert steps[k] == Ok(p.items[k]);
    }
    if p.error.Some? {
      assert steps[|p.items|] == Err(p.error.value);
    }
  }

  /** backward throws before touching the output exactly when the counts differ or the container is empty. */
  lemma BackwardRefusesIff(maps: Store<Image>, img: Store<Image>)
    requires img.WellFormed()
    ensures BackwardResult(maps, img).Err? <==> |img.items| != |maps.items| || |img.items| == 0
  {
    DimensionsCheckedIgnoresImages(img);
    if |img.items| > 0 {
      IndexInStorage(img, 0);
    }
  }

  /** Once backward runs, image k of the output is backward's image k of the input, as for forward. */
  lemma BackwardOutput(maps: Store<Image>, img: Store<Image>)
    requires BackwardResult(maps, img).Ok?
    ensures var p := BackwardResult(maps, img).value;
            var dims := Dims(img.At(0).value);
            && |p.items| <= |img.items|
            && (forall k :: 0 <= k < |p.items| ==> BackwardOne(maps, img, dims, k) == Ok(p.items[k]))
            && (p.error.None? <==> |p.items| == |img.items|)
            && (p.error.Some? ==> BackwardOne(maps, img, dims, |p.items|) == Err(p.error.value))
  {
    var dims := Dims(img.At(0).value);
    var steps := BackwardSteps(maps, img, dims, |img.items|);
    CollectIs(steps, 0, []);
    var p := Collect(steps, 0, []);
    assert BackwardResult(maps, img).value == p;
    forall k | 0 <= k < |p.items| ensures BackwardOne(maps, img, dims, k) == Ok(p.items[k]) {
      assert steps[k] == Ok(p.items[k]);
    }
    if p.error.Some? {
      assert steps[|p.items|] == Err(p.error.value);
    }
  }

  // ------------------------------------------------------------------ calculate

  /**
   * csm holds the maps calculate_csm computes from the coil images cm of extent e
   * (readout equal to nx), at the noise level noise.
   */
  ghost predicate EstimatedFrom(sqrt: real -> real, e: Extent, smoothness: int, cm: seq<Complex>,
                                csm: seq<Complex>, noise: real)
    requires |cm| == Size(e)
  {
    var img0 := RootSumSquares(sqrt, cm, e);
    var mask := NoiseMask(img0, noise);
    var cms := SmoothedTimes(cm, Some(mask), e, 1, Rounds(smoothness));
    && IsNoiseLevel(noise, sqrt, SmoothedTimes(cm, None, e, 1, 3), cm, e, SmallGrad(MaxAbs(img0, Volume(e)), e))
    && csm == Normalised(cms, RootSumSquares(sqrt, cms, e), mask, e)
  }

  /** csm is the map calculate appends for the coil image src. */
  ghost predicate CsmOf(sqrt: real -> real, smoothness: int, src: Image, csm: Image, noise: real) {
    && Consistent(src) && Volume(ExtentOf(src.head)) <= |src.data|
    && csm.head == src.head
    && EstimatedFrom(sqrt, ExtentOf(src.head), smoothness, src.data, csm.data, noise)
  }

  /** The channels of a voxel of the normalised images are its channels scaled by the voxel's factor. */
  lemma NormalisedChannels(u: seq<Complex>, img: seq<real>, mask: seq<int>, e: Extent, v: Voxel)
    requires |u| == Size(e) && Volume(e) <= |img| && |mask| == Volume(e) && InPlane(e, v)
    ensures 0 <= Spatial(e, v) < Volume(e)
    ensures Channels(Normalised(u, img, mask, e), e, v)
            == ScaledBy(Channels(u, e, v), Scale(img[Spatial(e, v)], mask[Spatial(e, v)]))
  {
    SpatialInside(e, v);
    var s := Scale(img[Spatial(e, v)], mask[Spatial(e, v)]);
    forall c | 0 <= c < e.nc
      ensures Channels(Normalised(u, img, mask, e), e, v)[c] == ScaledBy(Channels(u, e, v), s)[c]
    {
      NormalisedPos(u, img, mask, e, v.(c := c));
      NormalisedChannel(u, img, mask, e, v, c);
    }
  }

  /** Scaling by zero leaves only zeros. */
  lemma ScaledByZero(cs: seq<Complex>)
    ensures ScaledBy(cs, 0.0) == seq(|cs|, c => Zero)
  {
    forall c | 0 <= c < |cs| ensures ScaledBy(cs, 0.0)[c] == Zero {
      var a := cs[c];
      assert Mul(Complex(0.0, 0.0), a) == Complex(0.0 * a.re - 0.0 * a.im, 0.0 * a.im + 0.0 * a.re);
    }
  }

  /**
   * A calculated map is zero in every channel of a voxel outside the object mask,
   * and, with an exact square root, has total power 1 over the channels of a voxel
   * inside the mask whose smoothed root sum of squares is not zero.
   */
  lemma EstimateProperties(sqrt: real -> real, e: Extent, smoothness: int, cm: seq<Complex>,
                           csm: seq<Complex>, noise: real, v: Voxel)
    requires |cm| == Size(e) && EstimatedFrom(sqrt, e, smoothness, cm, csm, noise) && InPlane(e, v)
    ensures |csm| == Size(e) && 0 <= Spatial(e, v) < Volume(e)
    ensures var mask := NoiseMask(RootSumSquares(sqrt, cm, e), noise);
            mask[Spatial(e, v)] == 0 ==> Channels(csm, e, v) == seq(e.nc, c => Zero)
    ensures var mask := NoiseMask(RootSumSquares(sqrt, cm, e), noise);
            var cms := SmoothedTimes(cm, Some(mask), e, 1, Rounds(smoothness));
            ExactSqrt(sqrt) && mask[Spatial(e, v)] != 0 && RootSumSquares(sqrt, cms, e)[Spatial(e, v)] != 0.0
            ==> Power(Channels(csm, e, v)) == 1.0
  {
    SpatialInside(e, v);
    var mask := NoiseMask(RootSumSquares(sqrt, cm, e), noise);
    var cms := SmoothedTimes(cm, Some(mask), e, 1, Rounds(smoothness));
    var img := RootSumSquares(sqrt, cms, e);
    NormalisedChannels(cms, img, mask, e, v);
    if mask[Spatial(e, v)] == 0 {
      ScaledByZero(Channels(cms, e, v));
    }
    if ExactSqrt(sqrt) && mask[Spatial(e, v)] != 0 && img[Spatial(e, v)] != 0.0 {
      CsmNormalised(sqrt, cms, mask, e, v);
    }
  }

  /** One image of calculate: the coil image's maps, copied into an image with its header. */
  method CalculateImage(sqrt: real -> real, src: Image, smoothness: int) returns (r: Result<Image>, ghost noise: real)
    ensures r.Ok? <==> Consistent(src) && Volume(ExtentOf(src.head)) <= |src.data|
    ensures r.Ok? ==> CsmOf(sqrt, smoothness, src, r.value, noise)
    ensures r.Err? ==> r.error == Undefined
  {
    var e := ExtentOf(src.head);
    if |src.data| != Size(e) || Size(e) < Volume(e) {
      return Err(Undefined), 0.0;
    }
    assert Uncropped(e, e.nx) == e;
    var cm := new Complex[Size(e)](k requires 0 <= k < Size(e) => src.data[k]);
    assert cm[..] == src.data;
    var img := new real[Size(e)](_ => 0.0);
    var csm := new Complex[Size(e)](_ => Zero);
    ghost var prev := csm[..];
    ghost var mask;
    noise, mask := CalculateCsm(sqrt, e, e.nx, smoothness, cm, img, csm);
    CropIdentity(src.data, e);
    var cms := SmoothedTimes(src.data, Some(mask), e, 1, Rounds(smoothness));
    PlacedUncropped(prev, Normalised(cms, img[..Volume(e)], mask, e), e);
    r := Ok(Image(src.head, csm[..]));
  }

  class CoilSensitivitiesVector {
    var maps: seq<Image>
    var index: seq<int>
    var sorted: bool
    /** csm_smoothness_: the number of masked smoothing rounds. */
    var smoothness: int

    function Contents(): Store<Image>
      reads `maps, `index, `sorted
    {
      Store(maps, index, sorted)
    }

    constructor()
      ensures maps == [] && index == [] && !sorted && smoothness == 0
    {
      maps := [];
      index := [];
      sorted := false;
      smoothness := 0;
    }

    /** set_csm_smoothness(s). */
    method SetCsmSmoothness(s: int)
      modifies `smoothness
      ensures smoothness == s
    {
      smoothness := s;
    }

    /** get_csm_as_cfimage(tag, offset): the cyclic search from offset mod items(). */
    method FindCoilmap(tag: seq<int>, offset: int) returns (r: Result<Image>)
      requires |tag| == NUM_KSPACE_DIMS
      ensures r == CoilmapFor(Contents(), tag, offset)
    {
      var n := |maps|;
      var i := 0;
      while i < n
        invariant 0 <= i <= n
        invariant CoilmapFor(Contents(), tag, offset) == SearchFrom(Contents(), tag, offset, i)
      {
        var accessIdx := ((offset + i) % 0x1_0000_0000) % n;
        var csm := CsmAsImage(Contents(), accessIdx);
        if csm.Err? || Serves(csm.value, tag) {
          return csm;
        }
        i := i + 1;
      }
      r := Err(NotFound);
    }

    /** coilchannels_from_combined_image, one step: image i of combined, spread with its map. */
    method ForwardImage(combined: Store<Image>, i: int) returns (r: Result<Image>)
      ensures r == ForwardOne(Contents(), combined, i)
    {
      var src :- combined.At(i);
      if src.head.dataType != CXFLOAT {
        return Err(Undefined);
      }
      var coilmap :- FindCoilmap(TagFromImage(src.head), i);
      if !Consistent(coilmap) || !SameGrid(src.head, coilmap.head) || |src.data| < Volume(ExtentOf(coilmap.head)) {
        return Err(Undefined);
      }
      var dst := SpreadImage(src, coilmap);
      r := Ok(dst);
    }

    /** combine_images_with_coilmaps, one step: image i of img, combined with its map. */
    method BackwardImage(img: Store<Image>, dims: seq<int>, i: int) returns (r: Result<Image>)
      ensures r == BackwardOne(Contents(), img, dims, i)
    {
      var src :- img.At(i);
      if src.head.dataType != CXFLOAT {
        return Err(Undefined);
      }
      var coilmap :- FindCoilmap(TagFromImage(src.head), i);
      if dims != Dims(coilmap) {
        return Err(SizeMismatch);
      }
      if !Consistent(coilmap) || !Consistent(src) || Dims(src) != Dims(coilmap) {
        return Err(Undefined);
      }
      var dst := CombineImage(src, coilmap);
      r := Ok(dst);
    }

    /** forward(img, combined_img). */
    method Forward(out: ImagesVector, combined: ImagesVector) returns (o: Outcome)
      requires out != combined
      modifies out`images, out`meta
      ensures match ForwardResult(Contents(), combined.Contents())
              case Err(e) => o == Failed(e) && out.images == old(out.images) && out.meta == old(out.meta)
              case Ok(p) => o == OutcomeOf(p.error) && out.images == p.items && out.meta == combined.meta
    {
      if |combined.images| != |maps| {
        return Failed(SizeMismatch);
      }
      var consistent := combined.CheckDimensionConsistency();
      if consistent.Err? {
        return Failed(consistent.error);
      }
      var first := combined.Contents().At(0).value;
      if first.head.channels != 1 {
        return Failed(SizeMismatch);
      }
      out.SetMetaData(combined.meta);
      out.ClearData();
      var n := |combined.images|;
      ghost var steps := ForwardSteps(Contents(), combined.Contents(), n);
      var i := 0;
      while i < n
        invariant 0 <= i <= n
        invariant Collect(steps, 0, []) == Collect(steps, i, out.images)
        invariant out.meta == combined.meta
      {
        var im := ForwardImage(combined.Contents(), i);
        if im.Err? {
          return Failed(im.error);
        }
        out.Append(im.value);
        i := i + 1;
      }
      o := Done;
    }

    /** backward(combined_img, img). */
    method Backward(out: ImagesVector, img: ImagesVector) returns (o: Outcome)
      requires out != img
      modifies out`images, out`meta
      ensures match BackwardResult(Contents(), img.Contents())
              case Err(e) => o == Failed(e) && out.images == old(out.images) && out.meta == old(out.meta)
              case Ok(p) => o == OutcomeOf(p.error) && out.images == p.items && out.meta == img.meta
    {
      if |img.images| != |maps| {
        return Failed(SizeMismatch);
      }
      var consistent := img.CheckDimensionConsistency();
      if consistent.Err? {
        return Failed(consistent.error);
      }
      out.SetMetaData(img.meta);
      out.ClearData();
      var dims := Dims(img.Contents().At(0).value);
      var n := |img.images|;
      ghost var steps := BackwardSteps(Contents(), img.Contents(), dims, n);
      var i := 0;
      while i < n
        invariant 0 <= i <= n
        invariant Collect(steps, 0, []) == Collect(steps, i, out.images)
        invariant out.meta == img.meta
      {
        var im := BackwardImage(img.Contents(), dims, i);
        if im.Err? {
          return Failed(im.error);
        }
        out.Append(im.value);
        i := i + 1;
      }
      o := Done;
    }

    /**
     * calculate(iv): the vector is emptied, then one map is appended per coil image,
     * each with the header of its coil image; noises[k] is the noise level of image k.
     */
    method Calculate(sqrt: real -> real, iv: ImagesVector) returns (o: Outcome, ghost noises: seq<real>)
      modifies `maps
      ensures |noises| == |maps| <= |iv.images|
      ensures forall k :: 0 <= k < |maps| ==>
                iv.Contents().At(k).Ok? && CsmOf(sqrt, smoothness, iv.Contents().At(k).value, maps[k], noises[k])
      ensures o.Done? <==> |maps| == |iv.images|
      ensures o.Failed? ==> match iv.Contents().At(|maps|)
                            case Err(e) => o.error == e
                            case Ok(src) => o.error == Undefined
                                            && !(Consistent(src) && Volume(ExtentOf(src.head)) <= |src.data|)
    {
      maps := [];
      noises := [];
      var i := 0;
      while i < |iv.images|
        invariant 0 <= i <= |iv.images| && |maps| == |noises| == i
        invariant forall k :: 0 <= k < i ==>
                    iv.Contents().At(k).Ok? && CsmOf(sqrt, smoothness, iv.Contents().At(k).value, maps[k], noises[k])
      {
        var src := iv.Contents().At(i);
        if src.Err? {
          return Failed(src.error), noises;
        }
        var csm, noise := CalculateImage(sqrt, src.value, smoothness);
        if csm.Err? {
          return Failed(csm.error), noises;
        }
        maps := maps + [csm.value];
        noises := noises + [noise];
        i := i + 1;
      }
      o := Done;
    }

    /**
     * calculate(acq): the coil images are calculated from the acquisitions into a new
     * CoilImagesVector, and the maps from those images. An exception of the first step
     * leaves the maps as they were; otherwise map k is calculated from coil image k.
     */
    method CalculateFromAcquisitions(sqrt: real -> real, ad: AcquisitionsVector, toolboxes: bool, backward: Backward)
      returns (o: Outcome, ghost noises: seq<real>)
      requires ad.Valid()
      modifies `maps
      ensures var c := CalculationOf(ad.Contents(), ad.info, toolboxes, backward);
              c.error.Some? ==> o == Failed(c.error.value) && maps == old(maps)
      ensures var c := CalculationOf(ad.Contents(), ad.info, toolboxes, backward);
              c.error.None? ==>
                && |noises| == |maps| <= |c.appended|
                && (o.Done? <==> |maps| == |c.appended|)
                && forall k :: 0 <= k < |maps| ==> CsmOf(sqrt, smoothness, c.appended[k], maps[k], noises[k])
    {
      ghost var c := CalculationOf(ad.Contents(), ad.info, toolboxes, backward);
      var ci := new CoilImagesVector();
      o := ci.Calculate(ad, toolboxes, backward);
      if o.Failed? {
        return o, [];
      }
      ghost var images := ci.vector.Contents();
      assert images.items == c.appended && images.index == [];
      o, noises := Calculate(sqrt, ci.vector);
      forall k | 0 <= k < |maps| ensures CsmOf(sqrt, smoothness, c.appended[k], maps[k], noises[k]) {
        assert images.At(k) == Ok(c.appended[k]);
      }
      assert c == CalculationOf(ad.Contents(), ad.info, toolboxes, backward);
    }
  }
}

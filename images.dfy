/**
 * GadgetronImagesVector: a vector of reconstructed images, the optional
 * permutation `index_` through which image numbers are resolved, the `sorted_`
 * flag and the acquisition header the images carry as metadata. The per-image
 * operations of ImageWrap (gadgetron_image_wrap.h) are not part of this model:
 * the container algebra takes them as parameters and the model states what the
 * container does around them.
 */
module Images {
  import opened Complexes
  import opened Errors
  import opened Ismrmrd
  import opened Stores
  import opened AcquisitionOps
  import opened ContainerAlgebra

  // ------------------------------------------------- operands of the image algebra

  /** What one operand contributes to image i: a number, or an image. */
  datatype Operand = Value(c: Complex) | Picture(image: Image)

  /**
   * An operand besides x. A `Container` (y of xapyb, axpby and binary_op) must hold
   * as many images as x; a `Factor` (a or b of xapyb given as a container) must hold
   * as many or none; a `Scalar` is a number, whose number() is 0.
   */
  datatype Arg =
    | Container(store: Store<Image>)
    | Factor(store: Store<Image>)
    | Scalar(c: Complex)

  /** The size test the source applies to one operand, nx being the number of images of x. */
  predicate Fits(g: Arg, nx: nat) {
    match g
    case Container(s) => |s.items| == nx
    case Factor(s) => |s.items| == 0 || |s.items| == nx
    case Scalar(_) => true
  }

  /** The contribution of one operand to image i; a container is read through index(i). */
  function ArgAt(g: Arg, i: int): (r: Result<Operand>)
    ensures r.Err? ==> r.error != SizeMismatch
  {
    match g
    case Scalar(c) => Ok(Value(c))
    case _ =>
      var im :- g.store.At(i);
      Ok(Picture(im))
  }

  /** The contributions of all the operands to image i, read in order. */
  function ArgsAt(args: seq<Arg>, i: int): (r: Result<seq<Operand>>)
    ensures r.Ok? ==> |r.value| == |args|
    ensures r.Err? ==> r.error != SizeMismatch
  {
    if |args| == 0 then Ok([])
    else
      var first :- ArgAt(args[0], i);
      var rest :- ArgsAt(args[1..], i);
      Ok([first] + rest)
  }

  /** Image i can be read from x and from every operand. */
  predicate ReadableAt(x: Store<Image>, args: seq<Arg>, i: int) {
    x.At(i).Ok? && ArgsAt(args, i).Ok?
  }

  /**
   * The per-image operation (ImageWrap::xapyb, axpby, binary_op, semibinary_op or
   * unary_op): the image it writes, given the image it writes into, the image of x
   * and the other operands.
   */
  type ImageOp = (Image, Image, seq<Operand>) -> Image

  /** The images an elementwise operation leaves in the output, and the exception it ends with. */
  datatype Partial = Partial(items: seq<Image>, error: Option<Error>)

  /** The images a loop appends for steps i .. |steps|-1, up to the first that throws, and the exception. */
  function Collect(steps: seq<Result<Image>>, i: nat, acc: seq<Image>): Partial
    decreases |steps| - i
  {
    if i >= |steps| then Partial(acc, None)
    else
      match steps[i]
      case Err(e) => Partial(acc, Some(e))
      case Ok(im) => Collect(steps, i + 1, acc + [im])
  }

  /**
   * What such a loop leaves: the images of the steps before the first that threw,
   * in step order after acc, and that step's exception; all images otherwise.
   */
  lemma {:induction false} CollectIs(steps: seq<Result<Image>>, i: nat, acc: seq<Image>)
    requires i <= |steps|
    ensures var r := Collect(steps, i, acc);
            && |acc| <= |r.items| <= |acc| + |steps| - i && r.items[..|acc|] == acc
            && (forall k :: i <= k < i + |r.items| - |acc| ==> steps[k] == Ok(r.items[|acc| + k - i]))
            && (r.error.None? <==> |r.items| == |acc| + |steps| - i)
            && (r.error.Some? ==> steps[i + |r.items| - |acc|] == Err(r.error.value))
    decreases |steps| - i
  {
    if i < |steps| && steps[i].Ok? {
      var next := acc + [steps[i].value];
      CollectIs(steps, i + 1, next);
      var r := Collect(steps, i + 1, next);
      assert Collect(steps, i, acc) == r;
      assert r.items[..|acc|] == acc by {
        assert r.items[..|acc|] == r.items[..|next|][..|acc|];
      }
      assert i + 1 + |r.items| - |next| == i + |r.items| - |acc|;
    } else if i < |steps| {
      assert Collect(steps, i, acc) == Partial(acc, Some(steps[i].error));
    }
  }

  /** The size checks: every operand fits x, and a non-empty output holds as many images as x. */
  predicate SizesAgree(n: nat, x: Store<Image>, args: seq<Arg>) {
    && (forall k :: 0 <= k < |args| ==> Fits(args[k], |x.items|))
    && (n > 0 ==> n == |x.items|)
  }

  /**
   * xapyb_, axpby, binary_op, semibinary_op and unary_op of GadgetronImageData: the
   * sizes are checked first; a non-empty output is then overwritten image by image,
   * and an empty one receives a copy of each image of x that the operation rewrites.
   * The operands are the values they held on entry: image i of the output is written
   * after image i of every operand is read, and no other image of it is written then.
   */
  function Elementwise(out: Store<Image>, x: Store<Image>, args: seq<Arg>, op: ImageOp): Partial {
    if !SizesAgree(|out.items|, x, args) then Partial(out.items, Some(SizeMismatch))
    else if |out.items| > 0 then OverwriteFrom(out, x, args, op, 0)
    else AppendFrom(out.items, x, args, op, 0)
  }

  /** The result of the operation on image i, written where index(i) of the output points. */
  function OverwriteOne(out: Store<Image>, x: Store<Image>, args: seq<Arg>, op: ImageOp, i: int): (r: Result<seq<Image>>)
    ensures r.Err? ==> r.error != SizeMismatch
  {
    var ind :- out.Index(i);
    if !(0 <= ind < |out.items|) then Err(OutOfRange)
    else
      var xi :- x.At(i);
      var ops :- ArgsAt(args, i);
      Ok(out.items[ind := op(out.items[ind], xi, ops)])
  }

  function OverwriteFrom(out: Store<Image>, x: Store<Image>, args: seq<Arg>, op: ImageOp, i: nat): Partial
    decreases |x.items| - i
  {
    if i >= |x.items| then Partial(out.items, None)
    else
      match OverwriteOne(out, x, args, op, i)
      case Err(e) => Partial(out.items, Some(e))
      case Ok(items) => OverwriteFrom(out.(items := items), x, args, op, i + 1)
  }

  /** A copy of image i of x, rewritten by the operation. */
  function AppendOne(x: Store<Image>, args: seq<Arg>, op: ImageOp, i: int): (r: Result<Image>)
    ensures r.Err? ==> r.error != SizeMismatch
  {
    var xi :- x.At(i);
    var ops :- ArgsAt(args, i);
    Ok(op(xi, xi, ops))
  }

  function AppendFrom(acc: seq<Image>, x: Store<Image>, args: seq<Arg>, op: ImageOp, i: nat): Partial
    decreases |x.items| - i
  {
    if i >= |x.items| then Partial(acc, None)
    else
      match AppendOne(x, args, op, i)
      case Err(e) => Partial(acc, Some(e))
      case Ok(im) => AppendFrom(acc + [im], x, args, op, i + 1)
  }

  // ------------------------------------------------------ what the algebra does

  /** The loops never throw SizeMismatch: that exception comes from the size checks alone. */
  lemma {:induction false} OverwriteFromNoMismatch(out: Store<Image>, x: Store<Image>, args: seq<Arg>, op: ImageOp, i: nat)
    ensures OverwriteFrom(out, x, args, op, i).error != Some(SizeMismatch)
    decreases |x.items| - i
  {
    if i < |x.items| {
      var r := OverwriteOne(out, x, args, op, i);
      if r.Ok? {
        OverwriteFromNoMismatch(out.(items := r.value), x, args, op, i + 1);
      }
    }
  }

  lemma {:induction false} AppendFromNoMismatch(acc: seq<Image>, x: Store<Image>, args: seq<Arg>, op: ImageOp, i: nat)
    ensures AppendFrom(acc, x, args, op, i).error != Some(SizeMismatch)
    decreases |x.items| - i
  {
    if i < |x.items| {
      var r := AppendOne(x, args, op, i);
      if r.Ok? {
        AppendFromNoMismatch(acc + [r.value], x, args, op, i + 1);
      }
    }
  }

  /** The operation throws SizeMismatch, leaving the output as it was, exactly when the sizes disagree. */
  lemma ElementwiseRejectsIff(out: Store<Image>, x: Store<Image>, args: seq<Arg>, op: ImageOp)
    ensures Elementwise(out, x, args, op).error == Some(SizeMismatch) <==> !SizesAgree(|out.items|, x, args)
    ensures !SizesAgree(|out.items|, x, args) ==> Elementwise(out, x, args, op).items == out.items
  {
    OverwriteFromNoMismatch(out, x, args, op, 0);
    AppendFromNoMismatch(out.items, x, args, op, 0);
  }

  /** The image that image i of the output becomes when every operand can be read there. */
  function Expected(target: Image, x: Store<Image>, args: seq<Arg>, op: ImageOp, i: int): Image
    requires ReadableAt(x, args, i)
  {
    op(target, x.At(i).value, ArgsAt(args, i).value)
  }

  /** The image appended for image i of x: a copy of it, rewritten. */
  function Appended(x: Store<Image>, args: seq<Arg>, op: ImageOp, i: int): Image
    requires ReadableAt(x, args, i)
  {
    Expected(x.At(i).value, x, args, op, i)
  }

  /** Images 0 .. i-1 of the output rewritten, the others as they were. */
  predicate OverwrittenBelow(out: Store<Image>, items: seq<Image>, x: Store<Image>, args: seq<Arg>, op: ImageOp, i: nat)
    requires out.WellFormed() && |out.items| == |x.items| && out.FullyIndexed()
    requires forall j :: 0 <= j < |x.items| ==> ReadableAt(x, args, j)
  {
    && |items| == |out.items|
    && forall j :: 0 <= j < |x.items| ==>
         Store(items, out.index, out.sorted).At(j) ==
           if j < i then Ok(Expected(out.items[out.Index(j).value], x, args, op, j)) else out.At(j)
  }

  /**
   * A non-empty output whose size agrees, with every operand readable: no exception,
   * and image i becomes the operation applied to image i of the output and the operands.
   */
  lemma OverwriteResult(out: Store<Image>, x: Store<Image>, args: seq<Arg>, op: ImageOp)
    requires out.WellFormed() && out.FullyIndexed() && |out.items| > 0
    requires SizesAgree(|out.items|, x, args)
    requires forall j :: 0 <= j < |x.items| ==> ReadableAt(x, args, j)
    ensures var r := Elementwise(out, x, args, op);
      && r.error.None?
      && |r.items| == |out.items|
      && forall j :: 0 <= j < |x.items| ==>
           Store(r.items, out.index, out.sorted).At(j) == Ok(Expected(out.At(j).value, x, args, op, j))
  {
    forall j | 0 <= j < |out.items| ensures Store(out.items, out.index, out.sorted).At(j) == out.At(j) {
    }
    OverwriteFromIs(out, out.items, x, args, op, 0);
    var r := OverwriteFrom(out.(items := out.items), x, args, op, 0);
    assert out.(items := out.items) == out;
    forall j | 0 <= j < |x.items|
      ensures Store(r.items, out.index, out.sorted).At(j) == Ok(Expected(out.At(j).value, x, args, op, j))
    {
      IndexInStorage(out, j);
    }
  }

  lemma {:induction false} OverwriteFromIs(out: Store<Image>, items: seq<Image>, x: Store<Image>, args: seq<Arg>, op: ImageOp, i: nat)
    requires out.WellFormed() && out.FullyIndexed() && |out.items| == |x.items| && i <= |x.items|
    requires forall j :: 0 <= j < |x.items| ==> ReadableAt(x, args, j)
    requires OverwrittenBelow(out, items, x, args, op, i)
    ensures var r := OverwriteFrom(out.(items := items), x, args, op, i);
      r.error.None? && OverwrittenBelow(out, r.items, x, args, op, |x.items|)
    decreases |x.items| - i
  {
    if i < |x.items| {
      var cur := out.(items := items);
      IndexInStorage(out, i);
      var ind := out.Index(i).value;
      assert cur.Index(i) == out.Index(i);
      var next := items[ind := Expected(items[ind], x, args, op, i)];
      assert OverwriteOne(cur, x, args, op, i) == Ok(next);
      OverwriteStep(out, items, x, args, op, i);
      OverwriteFromIs(out, next, x, args, op, i + 1);
    }
  }

  /** Writing image i through index(i) moves the rewritten prefix on by one. */
  lemma OverwriteStep(out: Store<Image>, items: seq<Image>, x: Store<Image>, args: seq<Arg>, op: ImageOp, i: nat)
    requires out.WellFormed() && out.FullyIndexed() && |out.items| == |x.items| && i < |x.items|
    requires forall j :: 0 <= j < |x.items| ==> ReadableAt(x, args, j)
    requires OverwrittenBelow(out, items, x, args, op, i)
    ensures 0 <= out.Index(i).value < |items|
    ensures var ind := out.Index(i).value;
      OverwrittenBelow(out, items[ind := Expected(items[ind], x, args, op, i)], x, args, op, i + 1)
  {
    IndexInStorage(out, i);
    var ind := out.Index(i).value;
    var cur := Store(items, out.index, out.sorted);
    assert cur.At(i) == Ok(items[ind]) == out.At(i);
    var next := items[ind := Expected(items[ind], x, args, op, i)];
    forall j | 0 <= j < |x.items|
      ensures Store(next, out.index, out.sorted).At(j) ==
        if j < i + 1 then Ok(Expected(out.items[out.Index(j).value], x, args, op, j)) else out.At(j)
    {
      IndexInStorage(out, j);
      if j != i {
        IndexInjective(out, i, j);
        assert Store(next, out.index, out.sorted).At(j) == cur.At(j);
      }
    }
  }

  /**
   * An empty output, with every operand readable: no exception, and the output holds
   * one image per image of x, the operation applied to a copy of it.
   */
  lemma AppendResult(out: Store<Image>, x: Store<Image>, args: seq<Arg>, op: ImageOp)
    requires |out.items| == 0 && SizesAgree(0, x, args)
    requires forall j :: 0 <= j < |x.items| ==> ReadableAt(x, args, j)
    ensures var r := Elementwise(out, x, args, op);
      && r.error.None?
      && |r.items| == |x.items|
      && forall j :: 0 <= j < |x.items| ==> r.items[j] == Appended(x, args, op, j)
  {
    AppendFromIs([], x, args, op, 0);
  }

  lemma {:induction false} AppendFromIs(acc: seq<Image>, x: Store<Image>, args: seq<Arg>, op: ImageOp, i: nat)
    requires i == |acc| <= |x.items|
    requires forall j :: 0 <= j < |x.items| ==> ReadableAt(x, args, j)
    requires forall j :: 0 <= j < i ==> acc[j] == Appended(x, args, op, j)
    ensures var r := AppendFrom(acc, x, args, op, i);
      && r.error.None?
      && |r.items| == |x.items|
      && forall j :: 0 <= j < |x.items| ==> r.items[j] == Appended(x, args, op, j)
    decreases |x.items| - i
  {
    if i < |x.items| {
      var im := Appended(x, args, op, i);
      assert AppendOne(x, args, op, i) == Ok(im);
      AppendFromIs(acc + [im], x, args, op, i + 1);
    }
  }

  /** The operands of a container whose permutation is absent or complete can be read at every image. */
  lemma ReadableWhenFits(x: Store<Image>, args: seq<Arg>, i: int)
    requires x.WellFormed() && x.FullyIndexed() && 0 <= i < |x.items|
    requires forall k :: 0 <= k < |args| ==> !args[k].Scalar? ==>
      args[k].store.WellFormed() && args[k].store.FullyIndexed() && |args[k].store.items| == |x.items|
    ensures ReadableAt(x, args, i)
  {
    IndexInStorage(x, i);
    ArgsReadable(args, i, |x.items|);
  }

  lemma {:induction false} ArgsReadable(args: seq<Arg>, i: int, nx: nat)
    requires 0 <= i < nx
    requires forall k :: 0 <= k < |args| ==> !args[k].Scalar? ==>
      args[k].store.WellFormed() && args[k].store.FullyIndexed() && |args[k].store.items| == nx
    ensures ArgsAt(args, i).Ok?
  {
    if |args| > 0 {
      if !args[0].Scalar? {
        IndexInStorage(args[0].store, i);
      }
      ArgsReadable(args[1..], i, nx);
    }
  }

  // ----------------------------------------------------------------- reductions

  /** Image i of every input, read in order. */
  function ImagesAt(ins: seq<Store<Image>>, i: int): (r: Result<seq<Image>>)
    ensures r.Ok? ==> |r.value| == |ins|
  {
    if |ins| == 0 then Ok([])
    else
      var first :- ins[0].At(i);
      var rest :- ImagesAt(ins[1..], i);
      Ok([first] + rest)
  }

  /** The per-image values f(images i) for i below m, or the first exception. */
  function ImageValues(ins: seq<Store<Image>>, f: seq<Image> -> Complex, m: nat): (r: Result<seq<Complex>>)
    ensures r.Ok? ==> |r.value| == m
  {
    if m == 0 then Ok([])
    else
      var vs :- ImageValues(ins, f, m - 1);
      var got :- ImagesAt(ins, m - 1);
      Ok(vs + [f(got)])
  }

  /** A reduction over the first m images of the inputs. */
  function ImagesReduced(ins: seq<Store<Image>>, f: seq<Image> -> Complex, m: nat, kind: Reduction): Result<Complex> {
    var vs :- ImageValues(ins, f, m);
    Ok(Total(vs, kind))
  }

  /** One value per image once every image can be read; the value of image i is f at image i. */
  lemma {:induction false} ImageValuesOfReadable(ins: seq<Store<Image>>, f: seq<Image> -> Complex, m: nat)
    requires forall i :: 0 <= i < m ==> ImagesAt(ins, i).Ok?
    ensures ImageValues(ins, f, m).Ok?
    ensures forall i :: 0 <= i < m ==> ImageValues(ins, f, m).value[i] == f(ImagesAt(ins, i).value)
  {
    if m > 0 {
      ImageValuesOfReadable(ins, f, m - 1);
    }
  }

  /** max(): no less than zero and than any image's maximum, and zero or one of them. */
  lemma ReducedMaxBounds(ins: seq<Store<Image>>, f: seq<Image> -> Complex, m: nat)
    requires forall i :: 0 <= i < m ==> ImagesAt(ins, i).Ok?
    ensures ImagesReduced(ins, f, m, Largest).Ok?
    ensures var z := ImagesReduced(ins, f, m, Largest).value;
      && z.re >= 0.0
      && (forall i :: 0 <= i < m ==> f(ImagesAt(ins, i).value).re <= z.re)
      && (z == Zero || exists i :: 0 <= i < m && f(ImagesAt(ins, i).value) == z)
  {
    ImageValuesOfReadable(ins, f, m);
    var vs := ImageValues(ins, f, m).value;
    var z := MaxUpTo(vs, m);
    assert ImagesReduced(ins, f, m, Largest) == Ok(z);
    if z != Zero {
      var k :| 0 <= k < m && vs[k] == z;
      assert 0 <= k < m && f(ImagesAt(ins, k).value) == ImagesReduced(ins, f, m, Largest).value;
      assert exists i :: 0 <= i < m && f(ImagesAt(ins, i).value) == ImagesReduced(ins, f, m, Largest).value;
    }
  }

  /** sum(): one more image adds its value to the sum. */
  lemma ReducedSumStep(ins: seq<Store<Image>>, f: seq<Image> -> Complex, m: nat)
    requires ImageValues(ins, f, m + 1).Ok?
    ensures ImagesReduced(ins, f, m, Summed).Ok? && ImagesAt(ins, m).Ok?
    ensures ImagesReduced(ins, f, m + 1, Summed) == Ok(Add(ImagesReduced(ins, f, m, Summed).value, f(ImagesAt(ins, m).value)))
  {
    var vs := ImageValues(ins, f, m).value;
    TotalStep(vs, f(ImagesAt(ins, m).value), Summed);
  }

  // --------------------------------------------------------- the flattened iterator

  /** All the samples of the images, one image after the other. */
  function Concat(data: seq<seq<Complex>>): (r: seq<Complex>)
  {
    if |data| == 0 then [] else Concat(data[..|data| - 1]) + data[|data| - 1]
  }

  /** The number of samples before sample pos of image i. */
  function Flat(data: seq<seq<Complex>>, i: nat, pos: nat): nat
    requires i <= |data|
  {
    |Concat(data[..i])| + pos
  }

  /** A position of the iterator: sample pos of image i, pos at most that image's end. */
  predicate IsPosition(data: seq<seq<Complex>>, i: int, pos: int) {
    0 <= i < |data| && 0 <= pos <= |data[i]|
  }

  /** A position the iterator reaches from begin(): only the last image is ever left at its end. */
  predicate Canonical(data: seq<seq<Complex>>, i: int, pos: int) {
    IsPosition(data, i, pos) && (i < |data| - 1 ==> pos < |data[i]|)
  }

  /** The iterator is on the last image at its end: the position end() returns. */
  predicate AtEnd(data: seq<seq<Complex>>, i: int, pos: int) {
    i == |data| - 1 && IsPosition(data, i, pos) && pos == |data[i]|
  }

  /**
   * operator++: on the last image at its end it throws; otherwise it steps within the
   * image and, on reaching the end of an image that is not the last, moves to the
   * next image's begin. Stepping past the end of a non-last image, which happens only
   * on an empty image, is undefined.
   */
  function Step(data: seq<seq<Complex>>, i: int, pos: int): (r: Result<(int, int)>)
    requires IsPosition(data, i, pos)
    ensures r.Ok? ==> IsPosition(data, r.value.0, r.value.1)
  {
    if i >= |data| || AtEnd(data, i, pos) then Err(OutOfRange)
    else if pos == |data[i]| then Err(Undefined)
    else if pos + 1 == |data[i]| && i < |data| - 1 then Ok((i + 1, 0))
    else Ok((i, pos + 1))
  }

  /** operator*: the sample under the iterator, with the same out-of-range test. */
  function Deref(data: seq<seq<Complex>>, i: int, pos: int): Result<Complex>
    requires IsPosition(data, i, pos)
  {
    if i >= |data| || AtEnd(data, i, pos) then Err(OutOfRange)
    else if pos == |data[i]| then Err(Undefined)
    else Ok(data[i][pos])
  }

  lemma ConcatPrefix(data: seq<seq<Complex>>, i: nat)
    requires i < |data|
    ensures Concat(data[..i + 1]) == Concat(data[..i]) + data[i]
  {
    assert data[..i + 1][..i] == data[..i];
  }

  lemma {:induction false} ConcatPrefixLength(data: seq<seq<Complex>>, i: nat, j: nat)
    requires i <= j <= |data|
    ensures |Concat(data[..i])| <= |Concat(data[..j])|
    decreases j - i
  {
    if i < j {
      ConcatPrefix(data, j - 1);
      ConcatPrefixLength(data, i, j - 1);
    }
  }

  lemma ConcatAll(data: seq<seq<Complex>>)
    ensures Concat(data[..|data|]) == Concat(data)
  {
    assert data[..|data|] == data;
  }

  /** A step that does not throw moves the flattened position on by exactly one sample. */
  lemma StepAdvancesFlat(data: seq<seq<Complex>>, i: int, pos: int)
    requires IsPosition(data, i, pos) && Step(data, i, pos).Ok?
    ensures var (i', pos') := Step(data, i, pos).value;
      Flat(data, i', pos') == Flat(data, i, pos) + 1
  {
    if pos + 1 == |data[i]| && i < |data| - 1 {
      ConcatPrefix(data, i);
    }
  }

  /** From a canonical position in images that are all non-empty, stepping throws exactly at end(), and otherwise lands on a canonical position. */
  lemma StepFailsIffAtEnd(data: seq<seq<Complex>>, i: int, pos: int)
    requires Canonical(data, i, pos) && forall k :: 0 <= k < |data| ==> |data[k]| > 0
    ensures Step(data, i, pos).Err? <==> AtEnd(data, i, pos)
    ensures Step(data, i, pos).Err? ==> Step(data, i, pos).error == OutOfRange
    ensures Step(data, i, pos).Ok? ==> Canonical(data, Step(data, i, pos).value.0, Step(data, i, pos).value.1)
  {
  }

  /** At a canonical position short of end(), the iterator reads the flattened sample it stands on. */
  lemma DerefIsFlattened(data: seq<seq<Complex>>, i: int, pos: int)
    requires Canonical(data, i, pos) && !AtEnd(data, i, pos)
    ensures Flat(data, i, pos) < |Concat(data)|
    ensures Deref(data, i, pos) == Ok(Concat(data)[Flat(data, i, pos)])
  {
    ConcatPrefix(data, i);
    ConcatPrefixLength(data, i + 1, |data|);
    ConcatAll(data);
    ConcatPrefixAgree(data, i + 1, |data|);
    var c := Concat(data[..i + 1]);
    assert c[Flat(data, i, pos)] == data[i][pos];
  }

  /** A shorter prefix of the images flattens to a prefix of the longer one's flattening. */
  lemma {:induction false} ConcatPrefixAgree(data: seq<seq<Complex>>, i: nat, j: nat)
    requires i <= j <= |data|
    ensures |Concat(data[..i])| <= |Concat(data[..j])|
    ensures Concat(data[..j])[..|Concat(data[..i])|] == Concat(data[..i])
    decreases j - i
  {
    if i < j {
      ConcatPrefix(data, j - 1);
      ConcatPrefixAgree(data, i, j - 1);
    }
  }

  /** begin() stands at flattened position 0 and end() after the last sample. */
  lemma BeginAndEnd(data: seq<seq<Complex>>)
    requires |data| > 0
    ensures Flat(data, 0, 0) == 0
    ensures Flat(data, |data| - 1, |data[|data| - 1]|) == |Concat(data)|
  {
    assert data[..0] == [];
    ConcatPrefix(data, |data| - 1);
    ConcatAll(data);
  }

  /** Two canonical positions with the same flattened position are the same position. */
  lemma FlatInjective(data: seq<seq<Complex>>, i: int, pos: int, j: int, q: int)
    requires Canonical(data, i, pos) && Canonical(data, j, q)
    requires Flat(data, i, pos) == Flat(data, j, q)
    ensures i == j && pos == q
  {
    if i < j {
      ConcatPrefix(data, i);
      ConcatPrefixLength(data, i + 1, j);
    } else if j < i {
      ConcatPrefix(data, j);
      ConcatPrefixLength(data, j + 1, i);
    }
  }

  // ---------------------------------------------------------- the containers

  /** GadgetronImagesVector::Iterator over the samples of the images. */
  class ImageIterator {
    /** The samples of each image; the iterator does not change them. */
    const data: seq<seq<Complex>>
    /** n_: the number of images. */
    const n: int
    /** i_: the image under the iterator. */
    var i: int
    /** iter_: the position within that image. */
    var pos: int
    /** end_: the end of that image. */
    var endPos: int

    predicate Valid()
      reads `i, `pos, `endPos
    {
      n == |data| && IsPosition(data, i, pos) && endPos == |data[i]|
    }

    /** begin(): the first image at its first sample. Dereferencing the first image of none is undefined. */
    constructor Begin(data: seq<seq<Complex>>)
      requires |data| > 0
      ensures this.data == data && i == 0 && pos == 0
      ensures Valid()
    {
      this.data := data;
      n := |data|;
      i := 0;
      pos := 0;
      endPos := |data[0]|;
    }

    /** end(): the last image at its end. */
    constructor End(data: seq<seq<Complex>>)
      requires |data| > 0
      ensures this.data == data && i == |data| - 1 && pos == |data[|data| - 1]|
      ensures Valid()
    {
      this.data := data;
      n := |data|;
      i := |data| - 1;
      pos := |data[|data| - 1]|;
      endPos := |data[|data| - 1]|;
    }

    /** operator++. */
    method Advance() returns (o: Outcome)
      requires Valid()
      modifies `i, `pos, `endPos
      ensures Valid()
      ensures Step(data, old(i), old(pos)).Ok? ==>
        o == Done && (i, pos) == Step(data, old(i), old(pos)).value
      ensures Step(data, old(i), old(pos)).Err? ==>
        o == Failed(Step(data, old(i), old(pos)).error) && i == old(i) && pos == old(pos)
    {
      if i >= n || (i == n - 1 && pos == endPos) {
        return Failed(OutOfRange);
      }
      if pos == endPos {
        return Failed(Undefined);
      }
      pos := pos + 1;
      if pos == endPos && i < n - 1 {
        i := i + 1;
        pos := 0;
        endPos := |data[i]|;
      }
      o := Done;
    }

    /** operator*. */
    method Get() returns (r: Result<Complex>)
      requires Valid()
      ensures r == Deref(data, i, pos)
    {
      if i >= n || (i == n - 1 && pos == endPos) {
        return Err(OutOfRange);
      }
      if pos == endPos {
        return Err(Undefined);
      }
      r := Ok(data[i][pos]);
    }
  }

  class ImagesVector {
    var images: seq<Image>
    var index: seq<int>
    var sorted: bool
    var meta: Header

    /** The stored images as the algorithms see them. */
    function Contents(): Store<Image>
      reads `images, `index, `sorted
    {
      Store(images, index, sorted)
    }

    predicate Valid()
      reads `images, `index, `sorted
    {
      Contents().WellFormed()
    }

    constructor(meta: Header)
      ensures images == [] && index == [] && !sorted && this.meta == meta
      ensures Valid()
    {
      images := [];
      index := [];
      sorted := false;
      this.meta := meta;
    }

    /** number(). */
    function Number(): nat
      reads `images
    {
      |images|
    }

    /** append(iw): a copy goes to the end of the storage. */
    method Append(im: Image)
      modifies `images
      ensures images == old(images) + [im]
    {
      images := images + [im];
    }

    /**
     * clear_data(): the images go; the permutation and the flag stay as they are,
     * so Valid() may fail until as many images as the permutation covers are appended.
     */
    method ClearData()
      modifies `images
      ensures images == []
    {
      images := [];
    }

    /** set_meta_data(h). */
    method SetMetaData(h: Header)
      modifies `meta
      ensures meta == h
    {
      meta := h;
    }

    /**
     * The algebra of GadgetronImageData on x (whose header is xMeta) and the other
     * operands: the size checks, the loop, and the metadata copied from x.
     */
    method Combine(x: Store<Image>, xMeta: Header, args: seq<Arg>, op: ImageOp) returns (o: Outcome)
      requires Valid()
      modifies `images, `meta
      ensures Valid()
      ensures images == Elementwise(old(Contents()), x, args, op).items
      ensures o == OutcomeOf(Elementwise(old(Contents()), x, args, op).error)
      ensures meta == if o.Done? then xMeta else old(meta)
    {
      if !SizesAgree(|images|, x, args) {
        return Failed(SizeMismatch);
      }
      var error;
      if |images| > 0 {
        error := Overwrite(x, args, op);
      } else {
        error := AppendAll(x, args, op);
      }
      if error.Some? {
        return Failed(error.value);
      }
      meta := xMeta;
      o := Done;
    }

    /** The loop of a non-empty output: image i is rewritten in place, through index(i). */
    method Overwrite(x: Store<Image>, args: seq<Arg>, op: ImageOp) returns (error: Option<Error>)
      requires Valid()
      modifies `images
      ensures |images| == old(|images|)
      ensures Partial(images, error) == OverwriteFrom(old(Contents()), x, args, op, 0)
    {
      var out := Contents();
      var i := 0;
      while i < |x.items|
        invariant 0 <= i <= |x.items| && |images| == |out.items|
        invariant Contents() == out.(items := images)
        invariant OverwriteFrom(Contents(), x, args, op, i) == OverwriteFrom(out, x, args, op, 0)
      {
        var ind := Contents().Index(i);
        if ind.Err? {
          return Some(ind.error);
        }
        if !(0 <= ind.value < |images|) {
          return Some(OutOfRange);
        }
        var xi := x.At(i);
        if xi.Err? {
          return Some(xi.error);
        }
        var ops := ArgsAt(args, i);
        if ops.Err? {
          return Some(ops.error);
        }
        images := images[ind.value := op(images[ind.value], xi.value, ops.value)];
        i := i + 1;
      }
      error := None;
    }

    /** The loop of an empty output: a rewritten copy of each image of x is appended. */
    method AppendAll(x: Store<Image>, args: seq<Arg>, op: ImageOp) returns (error: Option<Error>)
      modifies `images
      ensures |images| >= old(|images|)
      ensures Partial(images, error) == AppendFrom(old(images), x, args, op, 0)
    {
      var start := images;
      var i := 0;
      while i < |x.items|
        invariant 0 <= i <= |x.items| && |images| == |start| + i
        invariant AppendFrom(images, x, args, op, i) == AppendFrom(start, x, args, op, 0)
      {
        var xi := x.At(i);
        if xi.Err? {
          return Some(xi.error);
        }
        var ops := ArgsAt(args, i);
        if ops.Err? {
          return Some(ops.error);
        }
        images := images + [op(xi.value, xi.value, ops.value)];
        i := i + 1;
      }
      error := None;
    }

    /**
     * xapyb(x, a, y, b): a and b each a number or a container, except a container a
     * with a number b, for which the class declares no overload.
     */
    method Xapyb(x: ImagesVector, a: Arg, y: ImagesVector, b: Arg, op: ImageOp) returns (o: Outcome)
      requires Valid() && !a.Container? && !b.Container? && !(a.Factor? && b.Scalar?)
      modifies `images, `meta
      ensures Valid()
      ensures images == Elementwise(old(Contents()), old(x.Contents()), [a, Container(old(y.Contents())), b], op).items
      ensures o == OutcomeOf(Elementwise(old(Contents()), old(x.Contents()), [a, Container(old(y.Contents())), b], op).error)
      ensures meta == if o.Done? then old(x.meta) else old(meta)
    {
      o := Combine(x.Contents(), x.meta, [a, Container(y.Contents()), b], op);
    }

    /** axpby(a, x, b, y) with numbers a and b. */
    method Axpby(a: Complex, x: ImagesVector, b: Complex, y: ImagesVector, op: ImageOp) returns (o: Outcome)
      requires Valid()
      modifies `images, `meta
      ensures Valid()
      ensures images == Elementwise(old(Contents()), old(x.Contents()), [Scalar(a), Container(old(y.Contents())), Scalar(b)], op).items
      ensures o == OutcomeOf(Elementwise(old(Contents()), old(x.Contents()), [Scalar(a), Container(old(y.Contents())), Scalar(b)], op).error)
      ensures meta == if o.Done? then old(x.meta) else old(meta)
    {
      o := Combine(x.Contents(), x.meta, [Scalar(a), Container(y.Contents()), Scalar(b)], op);
    }

    /** binary_op(x, y, f), behind multiply, divide, maximum, minimum and power. */
    method BinaryOp(x: ImagesVector, y: ImagesVector, op: ImageOp) returns (o: Outcome)
      requires Valid()
      modifies `images, `meta
      ensures Valid()
      ensures images == Elementwise(old(Contents()), old(x.Contents()), [Container(old(y.Contents()))], op).items
      ensures o == OutcomeOf(Elementwise(old(Contents()), old(x.Contents()), [Container(old(y.Contents()))], op).error)
      ensures meta == if o.Done? then old(x.meta) else old(meta)
    {
      o := Combine(x.Contents(), x.meta, [Container(y.Contents())], op);
    }

    /** semibinary_op(x, c, f), behind the forms of multiply, add, maximum, minimum and power taking a number. */
    method SemibinaryOp(x: ImagesVector, c: Complex, op: ImageOp) returns (o: Outcome)
      requires Valid()
      modifies `images, `meta
      ensures Valid()
      ensures images == Elementwise(old(Contents()), old(x.Contents()), [Scalar(c)], op).items
      ensures o == OutcomeOf(Elementwise(old(Contents()), old(x.Contents()), [Scalar(c)], op).error)
      ensures meta == if o.Done? then old(x.meta) else old(meta)
    {
      o := Combine(x.Contents(), x.meta, [Scalar(c)], op);
    }

    /** unary_op(x, f), behind exp, log, sqrt, sign and abs. */
    method UnaryOp(x: ImagesVector, op: ImageOp) returns (o: Outcome)
      requires Valid()
      modifies `images, `meta
      ensures Valid()
      ensures images == Elementwise(old(Contents()), old(x.Contents()), [], op).items
      ensures o == OutcomeOf(Elementwise(old(Contents()), old(x.Contents()), [], op).error)
      ensures meta == if o.Done? then old(x.meta) else old(meta)
    {
      o := Combine(x.Contents(), x.meta, [], op);
    }

    /**
     * check_dimension_consistency: the dimensions of image 0 are read once before the
     * loop and once per further image, and compared with themselves; an empty
     * container throws when image 0 is looked up.
     */
    method CheckDimensionConsistency() returns (r: Result<bool>)
      ensures r == DimensionsChecked(Contents())
    {
      var first := Contents().At(0);
      if first.Err? {
        return Err(first.error);
      }
      var dimsMatch := true;
      var i := 1;
      while i < |images|
        invariant dimsMatch
      {
        var temp := Contents().At(0);
        dimsMatch := dimsMatch && temp == first;
        i := i + 1;
      }
      r := Ok(dimsMatch);
    }

    /** dot(other): the sum of the per-image dot products over the images both hold. */
    method Dot(other: ImagesVector, f: seq<Image> -> Complex) returns (r: Result<Complex>)
      ensures r == ImagesReduced([Contents(), other.Contents()], f, Min(|images|, |other.images|), Summed)
    {
      r := ReduceImages([Contents(), other.Contents()], f, Min(|images|, |other.images|), Summed);
    }

    /** sum(): the sum of the per-image sums. */
    method Sum(f: seq<Image> -> Complex) returns (r: Result<Complex>)
      ensures r == ImagesReduced([Contents()], f, |images|, Summed)
    {
      r := ReduceImages([Contents()], f, |images|, Summed);
    }

    /** max(): the first per-image maximum of largest real part, or zero. */
    method Max(f: seq<Image> -> Complex) returns (r: Result<Complex>)
      ensures r == ImagesReduced([Contents()], f, |images|, Largest)
    {
      r := ReduceImages([Contents()], f, |images|, Largest);
    }
  }

  /** The dimensions get_dim reports for an image: x, y, z and channels. */
  function Dims(im: Image): seq<int> {
    [im.head.matrixSizeX, im.head.matrixSizeY, im.head.matrixSizeZ, im.head.channels]
  }

  /** Every image has the dimensions of image 0. */
  predicate DimensionsAgree(s: Store<Image>) {
    forall i :: 0 <= i < |s.items| ==> s.At(i).Ok? && s.At(0).Ok? ==> Dims(s.At(i).value) == Dims(s.At(0).value)
  }

  /** What check_dimension_consistency returns: true whenever image 0 can be read. */
  function DimensionsChecked(s: Store<Image>): (r: Result<bool>) {
    var first :- s.At(0);
    Ok(true)
  }

  /** check_dimension_consistency throws exactly on an empty container and otherwise reports agreement, whatever the images' dimensions. */
  lemma DimensionsCheckedIgnoresImages(s: Store<Image>)
    requires s.WellFormed()
    ensures DimensionsChecked(s).Err? <==> |s.items| == 0
    ensures DimensionsChecked(s).Err? ==> DimensionsChecked(s).error == OutOfRange
    ensures |s.items| > 0 ==> DimensionsChecked(s) == Ok(true)
  {
    if |s.items| > 0 {
      IndexInStorage(s, 0);
    }
  }

  /** Two images of different sizes pass check_dimension_consistency: it compares image 0 with itself. */
  lemma DimensionsCheckedMissesMismatch(a: Image, b: Image)
    requires Dims(a) != Dims(b)
    ensures !DimensionsAgree(Store([a, b], [], false))
    ensures DimensionsChecked(Store([a, b], [], false)) == Ok(true)
  {
    var s := Store([a, b], [], false);
    assert s.At(1) == Ok(b) && s.At(0) == Ok(a);
  }

  /**
   * A container with the permutation [1, 0], cleared and given one image again:
   * reading number 0 resolves to storage position 1, which `.at` refuses.
   */
  lemma ClearedPermutationOutOfRange(im: Image)
    ensures !Store([im], [1, 0], true).WellFormed()
    ensures Store([im], [1, 0], true).At(0) == Err(OutOfRange)
  {
  }

  /** The reduction loop of dot, sum and max over the first m images. */
  method ReduceImages(ins: seq<Store<Image>>, f: seq<Image> -> Complex, m: nat, kind: Reduction) returns (r: Result<Complex>)
    ensures r == ImagesReduced(ins, f, m, kind)
  {
    var z := Zero;
    var i := 0;
    while i < m
      invariant 0 <= i <= m
      invariant ImageValues(ins, f, i).Ok? && z == Total(ImageValues(ins, f, i).value, kind)
    {
      var got := ImagesAt(ins, i);
      if got.Err? {
        FirstFailureStays(ins, f, i + 1, m);
        return Err(got.error);
      }
      TotalStep(ImageValues(ins, f, i).value, f(got.value), kind);
      z := Accumulate(z, f(got.value), kind);
      i := i + 1;
    }
    r := Ok(z);
  }

  /** Once image i - 1 cannot be read, every longer reduction throws the same exception. */
  lemma {:induction false} FirstFailureStays(ins: seq<Store<Image>>, f: seq<Image> -> Complex, i: nat, m: nat)
    requires 0 < i <= m && ImageValues(ins, f, i - 1).Ok? && ImagesAt(ins, i - 1).Err?
    ensures ImageValues(ins, f, m) == Err(ImagesAt(ins, i - 1).error)
    decreases m
  {
    if m > i {
      FirstFailureStays(ins, f, i, m - 1);
    }
  }
}

/**
 * What a container exposes to the algorithms that read it: its stored items,
 * the optional logical permutation `index_` and the `sorted_` flag. The
 * acquisition and image containers both resolve a logical position i to a
 * storage position with `index(i)`.
 */
module Stores {
  import opened Errors

  /** The entries of p are exactly 0 .. |p|-1, each once. */
  predicate IsPermutation(p: seq<int>) {
    && (forall k :: 0 <= k < |p| ==> 0 <= p[k] < |p|)
    && (forall k, l :: 0 <= k < l < |p| ==> p[k] != p[l])
  }

  datatype Store<T> = Store(items: seq<T>, index: seq<int>, sorted: bool) {

    /** The container invariant: `index_` is a permutation of a prefix of the storage. */
    predicate WellFormed() {
      |index| <= |items| && IsPermutation(index)
    }

    /** Every logical position can be resolved: no permutation, or one that covers the storage. */
    predicate FullyIndexed() {
      |index| == 0 || |index| == |items|
    }

    /** index(i): refuses a negative i, an i past the permutation and an i past the storage. */
    function Index(i: int): Result<int> {
      if i < 0 || (|index| > 0 && i >= |index|) || i >= |items| then Err(OutOfRange)
      else if |index| > 0 then Ok(index[i])
      else Ok(i)
    }

    /** The item at logical position i (the stored copy that get_acquisition returns). */
    function Read(i: int): Result<T> {
      var ind :- Index(i);
      if 0 <= ind < |items| then Ok(items[ind]) else Err(Undefined)
    }

    /**
     * The item at logical position i read with `.at`, as the image container
     * does: a resolved position outside the storage is refused too.
     */
    function At(i: int): (r: Result<T>)
      ensures r.Ok? <==> Read(i).Ok?
      ensures r.Ok? ==> r == Read(i)
      ensures r.Err? ==> r == Err(OutOfRange) && (Read(i) == Err(Undefined) <==> Index(i).Ok?)
    {
      var ind :- Index(i);
      if 0 <= ind < |items| then Ok(items[ind]) else Err(OutOfRange)
    }

    /** Every logical position below number() can be read. */
    predicate Readable() {
      forall i :: 0 <= i < |items| ==> Read(i).Ok?
    }

    /** Writing item x at logical position i, as set_acquisition does. */
    function Write(i: int, x: T): Result<seq<T>> {
      var ind :- Index(i);
      if 0 <= ind < |items| then Ok(items[ind := x]) else Err(Undefined)
    }
  }

  /** Replacing the items by as many others keeps the container invariant. */
  lemma WellFormedWithItems<T>(s: Store<T>, items: seq<T>)
    requires s.WellFormed() && |items| == |s.items|
    ensures Store(items, s.index, s.sorted).WellFormed()
  {
  }

  /** On a well-formed container every resolved position is a storage position. */
  lemma IndexInStorage<T>(s: Store<T>, i: int)
    requires s.WellFormed() && s.Index(i).Ok?
    ensures 0 <= s.Index(i).value < |s.items|
    ensures s.Read(i) == Ok(s.items[s.Index(i).value])
    ensures s.At(i) == Ok(s.items[s.Index(i).value])
  {
  }

  /** A well-formed container whose permutation is absent or covers the storage can be read everywhere. */
  lemma ReadableWhenFullyIndexed<T>(s: Store<T>)
    requires s.WellFormed() && s.FullyIndexed()
    ensures s.Readable()
  {
    forall i | 0 <= i < |s.items| ensures s.Read(i).Ok? {
      IndexInStorage(s, i);
    }
  }

  /** index(i) is one-to-one on a well-formed container. */
  lemma IndexInjective<T>(s: Store<T>, i: int, j: int)
    requires s.WellFormed() && s.Index(i).Ok? && s.Index(j).Ok? && i != j
    ensures s.Index(i).value != s.Index(j).value
  {
  }

  /**
   * index(i) fails exactly outside [0, number()) on a fully indexed container;
   * with a permutation shorter than the storage it also fails past the permutation.
   */
  lemma IndexDefinedIff<T>(s: Store<T>, i: int)
    ensures s.Index(i).Ok? <==> 0 <= i < |s.items| && (|s.index| > 0 ==> i < |s.index|)
    ensures s.FullyIndexed() ==> (s.Index(i).Ok? <==> 0 <= i < |s.items|)
  {
  }

  /** Without a permutation, logical and storage positions coincide. */
  lemma IndexIdentityWithoutPermutation<T>(s: Store<T>, i: int)
    requires |s.index| == 0 && 0 <= i < |s.items|
    ensures s.Index(i) == Ok(i) && s.Read(i) == Ok(s.items[i])
  {
  }

  /** Writing through index(i) changes exactly the item that reading position i returns. */
  lemma WriteThenRead<T>(s: Store<T>, i: int, j: int, x: T)
    requires s.WellFormed() && s.Write(i, x).Ok?
    ensures Store(s.Write(i, x).value, s.index, s.sorted).Read(i) == Ok(x)
    ensures s.Index(j).Ok? && j != i ==>
      Store(s.Write(i, x).value, s.index, s.sorted).Read(j) == s.Read(j)
  {
  }
}

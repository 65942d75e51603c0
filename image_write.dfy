/**
 * ISMRMRDImageData::write(filename): the choice of output format from the file name.
 * `std::string` positions are 64-bit unsigned (`size_t`); `npos` is the largest of
 * them, and the arithmetic on positions wraps modulo 2^64 as in the source.
 */
module ImageWrite {
  import opened Errors

  const SizeRange: int := 0x1_0000_0000_0000_0000
  const Npos: int := SizeRange - 1

  /**
   * A size_t sum or difference: the value modulo 2^64, for the arguments that arise
   * here (at most one wrap in either direction).
   */
  function Wrap(x: int): (r: int)
    requires -SizeRange <= x < 2 * SizeRange
    ensures 0 <= r < SizeRange
    ensures r == x || r == x - SizeRange || r == x + SizeRange
  {
    if x < 0 then x + SizeRange else if x >= SizeRange then x - SizeRange else x
  }

  /** What write(filename) does. */
  datatype WriteAction =
    | Dicom(prefix: string)     // write DICOM files under this prefix
    | Hdf5(path: string)        // write one HDF5 file
    | Warn(extension: string)   // only print a warning naming the extension

  predicate IsSeparator(c: char) {
    c == '/' || c == '\\'
  }

  /** std::string::find_last_of for a set of characters: the last position holding one, or npos. */
  function FindLastOf(s: string, cs: set<char>): (r: int)
    requires |s| < SizeRange
    ensures r == Npos || 0 <= r < |s|
    ensures r == Npos <==> forall i :: 0 <= i < |s| ==> s[i] !in cs
    ensures r != Npos ==> s[r] in cs && forall i :: r < i < |s| ==> s[i] !in cs
  {
    LastBefore(s, cs, |s|)
  }

  /** The scan behind FindLastOf, over the first `n` characters. */
  function LastBefore(s: string, cs: set<char>, n: nat): (r: int)
    requires n <= |s| < SizeRange
    ensures r == Npos || 0 <= r < n
    ensures r == Npos <==> forall i :: 0 <= i < n ==> s[i] !in cs
    ensures r != Npos ==> s[r] in cs && forall i :: r < i < n ==> s[i] !in cs
  {
    if n == 0 then Npos
    else if s[n - 1] in cs then n - 1
    else LastBefore(s, cs, n - 1)
  }

  /**
   * write(filename). `substr(size - 4, 4)` throws out_of_range when the wrapped start
   * lies past the end, that is when the name is shorter than four characters.
   */
  function WriteTarget(filename: string): (r: Result<WriteAction>)
    requires |filename| < SizeRange
  {
    var size := |filename|;
    var start := Wrap(size - 4);
    if start > size then Err(OutOfRange)
    else
      var suff := filename[start..if start + 4 <= size then start + 4 else size];
      if suff == ".dcm" then Ok(Dicom(filename[..size - 4]))
      else ByExtension(filename)
  }

  /** The rest of write(filename): find the last '.' after the last separator. */
  function ByExtension(filename: string): (r: Result<WriteAction>)
    requires |filename| < SizeRange
  {
    var slashFound := FindLastOf(filename, {'/', '\\'});
    var found :=
      if slashFound == Npos then FindLastOf(filename, {'.'})
      else FindLastOf(filename[slashFound + 1..], {'.'});
    if found == Npos then Ok(Hdf5(filename + ".h5"))
    else FromPosition(filename, Wrap(slashFound + found + 1))
  }

  /** The extension `substr(pos)` decides between HDF5 and a warning. */
  function FromPosition(filename: string, pos: int): (r: Result<WriteAction>)
    requires 0 <= pos
  {
    if pos > |filename| then Err(OutOfRange)   // substr(pos) past the end; never taken
    else
      var ext := filename[pos..];
      if ext == ".h5" then Ok(Hdf5(filename)) else Ok(Warn(ext))
  }

  // ------------------------------------------------- the file name, described directly

  /** `e` is the extension of `f`: a suffix that starts with the last '.' of the base name. */
  predicate IsExtension(f: string, e: string) {
    && 1 <= |e| <= |f|
    && e == f[|f| - |e|..]
    && e[0] == '.'
    && forall i :: 1 <= i < |e| ==> e[i] != '.' && !IsSeparator(e[i])
  }

  /** Every '.' of `f` is followed by a separator: the base name has no extension. */
  predicate HasNoExtension(f: string) {
    forall i :: 0 <= i < |f| && f[i] == '.' ==> exists j :: i < j < |f| && IsSeparator(f[j])
  }

  /** A name has at most one extension. */
  lemma ExtensionUnique(f: string, e1: string, e2: string)
    requires IsExtension(f, e1) && IsExtension(f, e2)
    ensures e1 == e2
  {
  }

  /** Names shorter than four characters throw; all others are dispatched. */
  lemma WriteFailsIff(f: string)
    requires |f| < SizeRange
    ensures WriteTarget(f).Err? <==> |f| < 4
  {
    if |f| >= 4 {
      var _ := WriteFindsExtension(f);
    }
  }

  /** A ".dcm" suffix writes DICOM under the name with the suffix removed. */
  lemma WriteDicom(f: string)
    requires 4 <= |f| < SizeRange && f[|f| - 4..] == ".dcm"
    ensures WriteTarget(f) == Ok(Dicom(f[..|f| - 4]))
  {
  }

  /**
   * Any other name of at least four characters: no extension writes HDF5 to the name
   * plus ".h5", extension ".h5" writes HDF5 to the name as given, any other extension
   * only warns.
   */
  lemma WriteOtherNames(f: string)
    requires 4 <= |f| < SizeRange && f[|f| - 4..] != ".dcm"
    ensures HasNoExtension(f) ==> WriteTarget(f) == Ok(Hdf5(f + ".h5"))
    ensures forall e :: IsExtension(f, e) ==>
      WriteTarget(f) == Ok(if e == ".h5" then Hdf5(f) else Warn(e))
  {
    var x := WriteFindsExtension(f);
    match x
    case None =>
    case Some(e) =>
      forall e' | IsExtension(f, e') ensures e' == e {
        ExtensionUnique(f, e, e');
      }
  }

  /** The search in the source finds the extension, or finds that there is none. */
  lemma WriteFindsExtension(f: string) returns (ext: Option<string>)
    requires 4 <= |f| < SizeRange
    ensures ext.None? ==> HasNoExtension(f)
    ensures ext.Some? ==> IsExtension(f, ext.value)
    ensures WriteTarget(f) ==
      if f[|f| - 4..] == ".dcm" then Ok(Dicom(f[..|f| - 4]))
      else if ext.None? then Ok(Hdf5(f + ".h5"))
      else if ext.value == ".h5" then Ok(Hdf5(f))
      else Ok(Warn(ext.value))
  {
    ext := ExtensionFound(f);
  }

  lemma ExtensionFound(f: string) returns (ext: Option<string>)
    requires |f| < SizeRange
    ensures ext.None? ==> HasNoExtension(f)
    ensures ext.Some? ==> IsExtension(f, ext.value)
    ensures ByExtension(f) ==
      if ext.None? then Ok(Hdf5(f + ".h5"))
      else if ext.value == ".h5" then Ok(Hdf5(f))
      else Ok(Warn(ext.value))
  {
    if FindLastOf(f, {'/', '\\'}) == Npos {
      ext := ExtensionWithoutSeparator(f);
    } else {
      ext := ExtensionAfterSeparator(f);
    }
  }

  /** No separator: the last '.' of the whole name starts the extension. */
  lemma ExtensionWithoutSeparator(f: string) returns (ext: Option<string>)
    requires |f| < SizeRange && FindLastOf(f, {'/', '\\'}) == Npos
    ensures ext.None? ==> HasNoExtension(f)
    ensures ext.Some? ==> IsExtension(f, ext.value)
    ensures ByExtension(f) ==
      if ext.None? then Ok(Hdf5(f + ".h5"))
      else if ext.value == ".h5" then Ok(Hdf5(f))
      else Ok(Warn(ext.value))
  {
    var found := FindLastOf(f, {'.'});
    if found == Npos {
      ext := None;
    } else {
      ext := Some(f[found..]);
    }
  }

  /** The last '.' after the last separator, searched for in the rest of the name. */
  lemma ExtensionAfterSeparator(f: string) returns (ext: Option<string>)
    requires |f| < SizeRange && FindLastOf(f, {'/', '\\'}) != Npos
    ensures ext.None? ==> HasNoExtension(f)
    ensures ext.Some? ==> IsExtension(f, ext.value)
    ensures ByExtension(f) ==
      if ext.None? then Ok(Hdf5(f + ".h5"))
      else if ext.value == ".h5" then Ok(Hdf5(f))
      else Ok(Warn(ext.value))
  {
    var slashFound := FindLastOf(f, {'/', '\\'});
    var rest := f[slashFound + 1..];
    var found := FindLastOf(rest, {'.'});
    assert forall k :: slashFound < k < |f| ==> f[k] == rest[k - slashFound - 1];
    if found == Npos {
      ext := None;
      assert ByExtension(f) == Ok(Hdf5(f + ".h5"));
      NoDotAfterSeparator(f, slashFound);
    } else {
      var pos := slashFound + found + 1;
      ext := Some(f[pos..]);
      ByExtensionAt(f, slashFound, found);
      DotAfterSeparator(f, slashFound, slashFound + found + 1);
    }
  }

  /** ByExtension once both searches have found something. */
  lemma ByExtensionAt(f: string, slash: int, found: int)
    requires |f| < SizeRange && slash == FindLastOf(f, {'/', '\\'}) != Npos
    requires found == FindLastOf(f[slash + 1..], {'.'}) != Npos
    ensures ByExtension(f) == FromPosition(f, slash + found + 1)
  {
  }

  /** No '.' after the last separator: the name has no extension. */
  lemma NoDotAfterSeparator(f: string, slash: int)
    requires 0 <= slash < |f| && IsSeparator(f[slash])
    requires forall k :: slash < k < |f| ==> f[k] != '.'
    ensures HasNoExtension(f)
  {
    forall i | 0 <= i < |f| && f[i] == '.' ensures exists j :: i < j < |f| && IsSeparator(f[j]) {
      assert IsSeparator(f[slash]);
    }
  }

  /** The last '.' after the last separator starts the extension. */
  lemma DotAfterSeparator(f: string, slash: int, dot: int)
    requires 0 <= slash < dot < |f| && f[dot] == '.'
    requires forall k :: slash < k < |f| ==> !IsSeparator(f[k])
    requires forall k :: dot < k < |f| ==> f[k] != '.'
    ensures IsExtension(f, f[dot..])
  {
    var e := f[dot..];
    forall i | 1 <= i < |e| ensures e[i] != '.' && !IsSeparator(e[i]) {
      assert e[i] == f[dot + i];
    }
  }
}

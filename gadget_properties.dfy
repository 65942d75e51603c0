/**
 * The property-string parser of cGT_setGadgetProperties: a string such as
 * "a=1, b=2" becomes one set_property(name, value) call per pair, in order.
 * The gadget receiving the calls is outside the model; the parser returns the calls
 * it makes, and the exception that ends it, if any. Positions are `size_t`, with
 * `npos` the largest 64-bit value.
 */
module GadgetProperties {
  import opened Errors

  const SizeRange: int := 0x1_0000_0000_0000_0000
  const Npos: int := SizeRange - 1

  /** The three character sets the parser searches for. */
  datatype CharSet =
    | Whitespace   // " \t\n\v\f\r"
    | NameEnd      // "= \t\n\v\f\r": ends a name, and is skipped before a value
    | ValueEnd     // ", \t\n\v\f\r"

  predicate IsSpace(c: char) {
    c == ' ' || c == '\t' || c == '\n' || c == 11 as char || c == 12 as char || c == '\r'
  }

  predicate In(c: char, cs: CharSet) {
    match cs
    case Whitespace => IsSpace(c)
    case NameEnd => c == '=' || IsSpace(c)
    case ValueEnd => c == ',' || IsSpace(c)
  }

  /** One set_property call. */
  datatype Property = Property(name: string, value: string)

  /** The calls made, and the exception that ended the parse, if any. */
  datatype Parsed = Parsed(calls: seq<Property>, error: Option<Error>)

  /** std::string::find_first_of from position i: the first position at or after i holding a character of cs, or npos. */
  function FindFirstOf(s: string, cs: CharSet, i: int): (r: int)
    requires 0 <= i && |s| < SizeRange
    ensures r == Npos || i <= r < |s|
    decreases |s| - i
  {
    if i >= |s| then Npos
    else if In(s[i], cs) then i
    else FindFirstOf(s, cs, i + 1)
  }

  /** find_first_of finds the first matching position, and npos only when there is none. */
  lemma {:induction false} FindFirstOfSpec(s: string, cs: CharSet, i: int)
    requires 0 <= i && |s| < SizeRange
    ensures var r := FindFirstOf(s, cs, i);
      && (r == Npos <==> forall k :: i <= k < |s| ==> !In(s[k], cs))
      && (r != Npos ==> In(s[r], cs) && forall k :: i <= k < r ==> !In(s[k], cs))
    decreases |s| - i
  {
    if i < |s| && !In(s[i], cs) {
      FindFirstOfSpec(s, cs, i + 1);
    }
  }

  /** std::string::find_first_not_of from position i. */
  function FindFirstNotOf(s: string, cs: CharSet, i: int): (r: int)
    requires 0 <= i && |s| < SizeRange
    ensures r == Npos || i <= r < |s|
    decreases |s| - i
  {
    if i >= |s| then Npos
    else if !In(s[i], cs) then i
    else FindFirstNotOf(s, cs, i + 1)
  }

  /** find_first_not_of finds the first position outside the set, and npos only when there is none. */
  lemma {:induction false} FindFirstNotOfSpec(s: string, cs: CharSet, i: int)
    requires 0 <= i && |s| < SizeRange
    ensures var r := FindFirstNotOf(s, cs, i);
      && (r == Npos <==> forall k :: i <= k < |s| ==> In(s[k], cs))
      && (r != Npos ==> !In(s[r], cs) && forall k :: i <= k < r ==> In(s[k], cs))
    decreases |s| - i
  {
    if i < |s| && In(s[i], cs) {
      FindFirstNotOfSpec(s, cs, i + 1);
    }
  }

  /** One pass of the loop, from position i: the pair it reads and where the next pass starts. */
  datatype Pass = Stop | Throw(name: string) | Pair(name: string, value: string, next: nat)

  function PassAt(s: string, i: nat): (r: Pass)
    requires i <= |s| < SizeRange
    ensures r.Pair? ==> i < r.next <= |s|
  {
    var j := FindFirstNotOf(s, Whitespace, i);
    if j == Npos then Stop
    else
      var e := FindFirstOf(s, NameEnd, j);
      var nameEnd := if e == Npos then |s| else e;
      var name := s[j..nameEnd];
      var vi := FindFirstNotOf(s, NameEnd, nameEnd);
      var ve := FindFirstOf(s, ValueEnd, vi);
      var valueEnd := if ve == Npos then |s| else ve;
      if vi > |s| then Throw(name)   // substr at npos throws out_of_range
      else
        var next := if valueEnd < |s| && s[valueEnd] == ',' then valueEnd + 1 else valueEnd;
        assert vi > j by {
          FindFirstNotOfSpec(s, Whitespace, i);
          FindFirstNotOfSpec(s, NameEnd, nameEnd);
        }
        Pair(name, s[vi..valueEnd], next)
  }

  /** The calls made from position i onwards. */
  function ParseFrom(s: string, i: nat): (r: Parsed)
    requires i <= |s| < SizeRange
    decreases |s| - i
  {
    match PassAt(s, i)
    case Stop => Parsed([], None)
    case Throw(_) => Parsed([], Some(OutOfRange))
    case Pair(name, value, next) =>
      var rest := ParseFrom(s, next);
      Parsed([Property(name, value)] + rest.calls, rest.error)
  }

  /** cGT_setGadgetProperties: the parsing loop, calls collected in order. */
  method SetGadgetProperties(props: string) returns (calls: seq<Property>, error: Option<Error>)
    requires |props| < SizeRange
    ensures Parsed(calls, error) == ParseFrom(props, 0)
  {
    var i := 0;
    calls := [];
    error := None;
    while true
      invariant 0 <= i <= |props|
      invariant ParseFrom(props, 0) == Parsed(calls + ParseFrom(props, i).calls, ParseFrom(props, i).error)
      decreases |props| - i
    {
      var pass := ReadPass(props, i);
      if pass.Stop? {
        break;
      }
      if pass.Throw? {
        error := Some(OutOfRange);
        return;
      }
      calls := calls + [Property(pass.name, pass.value)];
      i := pass.next;
    }
  }

  /** The body of the parsing loop: the name up to '=' or ',', the value up to ',', from position i. */
  method ReadPass(props: string, i: nat) returns (pass: Pass)
    requires i <= |props| < SizeRange
    ensures pass == PassAt(props, i)
  {
    var n := |props|;
    var j := FindFirstNotOf(props, Whitespace, i);
    if j == Npos {
      return Stop;
    }
    var k := j;
    j := FindFirstOf(props, NameEnd, k);
    if j == Npos {
      j := n;
    }
    var prop := props[k..j];
    k := j;
    k := FindFirstNotOf(props, NameEnd, k);
    j := FindFirstOf(props, ValueEnd, k);
    if j == Npos {
      j := n;
    }
    if k > n {
      return Throw(prop);
    }
    var value := props[k..j];
    if j < n && props[j] == ',' {
      j := j + 1;
    }
    pass := Pair(prop, value, j);
  }

  /** The position find_first_of returns, from its characterisation. */
  lemma FindFirstOfIs(s: string, cs: CharSet, i: int, r: int)
    requires 0 <= i && |s| < SizeRange
    requires r == Npos ==> forall k :: i <= k < |s| ==> !In(s[k], cs)
    requires r != Npos ==> i <= r < |s| && In(s[r], cs) && forall k :: i <= k < r ==> !In(s[k], cs)
    ensures FindFirstOf(s, cs, i) == r
  {
    FindFirstOfSpec(s, cs, i);
  }

  /** The position find_first_not_of returns, from its characterisation. */
  lemma FindFirstNotOfIs(s: string, cs: CharSet, i: int, r: int)
    requires 0 <= i && |s| < SizeRange
    requires r == Npos ==> forall k :: i <= k < |s| ==> In(s[k], cs)
    requires r != Npos ==> i <= r < |s| && !In(s[r], cs) && forall k :: i <= k < r ==> In(s[k], cs)
    ensures FindFirstNotOf(s, cs, i) == r
  {
    FindFirstNotOfSpec(s, cs, i);
  }

  // ------------------------------------------------------------------ properties

  predicate AllWhitespace(s: string) {
    forall k :: 0 <= k < |s| ==> In(s[k], Whitespace)
  }

  /** An empty or blank string makes no call, and only such a string. */
  lemma BlankMakesNoCalls(s: string)
    requires |s| < SizeRange
    ensures ParseFrom(s, 0) == Parsed([], None) <==> AllWhitespace(s)
  {
    FindFirstNotOfSpec(s, Whitespace, 0);
  }

  predicate CleanName(name: string) {
    forall k :: 0 <= k < |name| ==> !In(name[k], NameEnd)
  }

  predicate CleanValue(value: string) {
    (|value| > 0 ==> value[0] != '=') && forall k :: 0 <= k < |value| ==> !In(value[k], ValueEnd)
  }

  /** The pair one pass reads has a clean name and a clean value. */
  lemma PassIsClean(s: string, i: nat)
    requires i <= |s| < SizeRange
    ensures PassAt(s, i).Pair? ==> CleanName(PassAt(s, i).name) && CleanValue(PassAt(s, i).value)
  {
    var j := FindFirstNotOf(s, Whitespace, i);
    if j != Npos {
      FindFirstOfSpec(s, NameEnd, j);
      var e := FindFirstOf(s, NameEnd, j);
      var nameEnd := if e == Npos then |s| else e;
      FindFirstNotOfSpec(s, NameEnd, nameEnd);
      var vi := FindFirstNotOf(s, NameEnd, nameEnd);
      if vi <= |s| {
        FindFirstOfSpec(s, ValueEnd, vi);
      }
    }
  }

  /**
   * Names never hold '=' or whitespace; values never hold ',' or whitespace and never
   * start with '='.
   */
  lemma {:induction false} CallsAreClean(s: string, i: nat)
    requires i <= |s| < SizeRange
    ensures forall c :: c in ParseFrom(s, i).calls ==> CleanName(c.name) && CleanValue(c.value)
    decreases |s| - i
  {
    PassIsClean(s, i);
    match PassAt(s, i)
    case Stop =>
    case Throw(_) =>
    case Pair(name, value, next) =>
      CallsAreClean(s, next);
  }

  /**
   * A name with nothing but '=' and whitespace after it ("a=", "a", " a = ") throws
   * when substr is asked for the value at npos.
   */
  lemma NameWithoutValueThrows(w: string, name: string, rest: string)
    requires AllWhitespace(w) && CleanName(name) && |name| > 0
    requires forall k :: 0 <= k < |rest| ==> In(rest[k], NameEnd)
    requires |w + name + rest| < Npos
    ensures ParseFrom(w + name + rest, 0) == Parsed([], Some(OutOfRange))
  {
    var s := w + name + rest;
    assert s[0..] == s;
    NameWithoutValueThrowsAt(s, 0, w, name, rest);
  }

  lemma NameWithoutValueThrowsAt(s: string, i: nat, w: string, name: string, rest: string)
    requires AllWhitespace(w) && CleanName(name) && |name| > 0
    requires forall k :: 0 <= k < |rest| ==> In(rest[k], NameEnd)
    requires i <= |s| < Npos && s[i..] == w + name + rest
    ensures ParseFrom(s, i) == Parsed([], Some(OutOfRange))
  {
    var a := i + |w|;
    var m := a + |name|;
    assert forall k :: i <= k < a ==> s[k] == s[i..][k - i] == w[k - i];
    assert forall k :: a <= k < m ==> s[k] == s[i..][k - i] == name[k - a];
    assert forall k :: m <= k < |s| ==> s[k] == s[i..][k - i] == rest[k - m];
    FindFirstNotOfIs(s, Whitespace, i, a);
    FindFirstOfIs(s, NameEnd, a, if rest == [] then Npos else m);
    FindFirstNotOfIs(s, NameEnd, m, Npos);
    assert PassAt(s, i).Throw?;
  }

  // ------------------------------------------------------------------ the round trip

  /** name=value */
  function Entry(p: Property): string {
    p.name + "=" + p.value
  }

  /** The pairs written as name=value, separated by commas. */
  function Join(ps: seq<Property>): string {
    if |ps| == 0 then ""
    else if |ps| == 1 then Entry(ps[0])
    else Entry(ps[0]) + "," + Join(ps[1..])
  }

  predicate Writable(p: Property) {
    CleanName(p.name) && CleanValue(p.value) && |p.value| > 0
  }

  /** Pairs with clean names and non-empty clean values are read back as written. */
  lemma ParseJoin(ps: seq<Property>)
    requires forall k :: 0 <= k < |ps| ==> Writable(ps[k])
    requires |Join(ps)| < SizeRange
    ensures ParseFrom(Join(ps), 0) == Parsed(ps, None)
  {
    var s := Join(ps);
    if |ps| > 0 {
      ParseJoinThen(s, 0, ps, |s|);
      assert ps + [] == ps;
    }
    ParseAtEnd(s, |s|);
  }

  /**
   * The calls made before an exception stay made: pairs written before a name that has
   * no value are all set, and then the parse throws.
   */
  lemma CallsBeforeThrowStay(ps: seq<Property>, name: string, rest: string)
    requires |ps| > 0 && forall k :: 0 <= k < |ps| ==> Writable(ps[k])
    requires CleanName(name) && |name| > 0 && forall k :: 0 <= k < |rest| ==> In(rest[k], NameEnd)
    requires |Join(ps) + "," + name + rest| < Npos
    ensures ParseFrom(Join(ps) + "," + name + rest, 0) == Parsed(ps, Some(OutOfRange))
  {
    var j := |Join(ps)|;
    var s := Join(ps) + "," + name + rest;
    CommaSplit(Join(ps), name, rest);
    ParseJoinThen(s, 0, ps, j);
    NameWithoutValueThrowsAt(s, j + 1, [], name, rest);
    assert ps + [] == ps;
  }

  /**
   * Pairs written from position i up to j, where the string ends or a ',' follows, are
   * read back in order; the parse goes on after them.
   */
  lemma {:induction false} ParseJoinThen(s: string, i: nat, ps: seq<Property>, j: nat)
    requires |ps| > 0 && forall k :: 0 <= k < |ps| ==> Writable(ps[k])
    requires i <= j <= |s| < SizeRange && s[i..j] == Join(ps)
    requires j == |s| || s[j] == ','
    ensures var next := if j == |s| then j else j + 1;
      ParseFrom(s, i) == Parsed(ps + ParseFrom(s, next).calls, ParseFrom(s, next).error)
    decreases |ps|
  {
    if |ps| == 1 {
      ParseJoinOne(s, i, ps, j);
    } else {
      var next := if j == |s| then j else j + 1;
      var mid := ParseJoinHead(s, i, ps, j);
      ParseJoinThen(s, mid, ps[1..], j);
      ParseThrough(s, i, mid, next, ps);
    }
  }

  /** The first of several written pairs is read at i, and the others are written from the position after its ','. */
  lemma ParseJoinHead(s: string, i: nat, ps: seq<Property>, j: nat) returns (mid: nat)
    requires |ps| > 1 && forall k :: 0 <= k < |ps| ==> Writable(ps[k])
    requires i <= j <= |s| < SizeRange && s[i..j] == Join(ps)
    ensures mid <= j && s[mid..j] == Join(ps[1..])
    ensures PassAt(s, i) == Pair(ps[0].name, ps[0].value, mid)
  {
    var e := Entry(ps[0]);
    JoinCons(ps);
    SliceSplit(s, i, j, e, "," + Join(ps[1..]));
    PassOverEntry(s, i, ps[0]);
    mid := i + |e| + 1;
    SliceSplit(s, i + |e|, j, ",", Join(ps[1..]));
  }

  /** One pair read at i, the rest of ps read from mid on: all of ps is read from i on. */
  lemma ParseThrough(s: string, i: nat, mid: nat, next: nat, ps: seq<Property>)
    requires |ps| > 0 && i <= |s| < SizeRange && mid <= |s| && next <= |s|
    requires PassAt(s, i) == Pair(ps[0].name, ps[0].value, mid)
    requires ParseFrom(s, mid) == Parsed(ps[1..] + ParseFrom(s, next).calls, ParseFrom(s, next).error)
    ensures ParseFrom(s, i) == Parsed(ps + ParseFrom(s, next).calls, ParseFrom(s, next).error)
  {
    ParseStep(s, i, ps[0], mid);
    ConsCalls(ps, ParseFrom(s, next).calls);
  }

  lemma ConsCalls(ps: seq<Property>, rest: seq<Property>)
    requires |ps| > 0
    ensures [ps[0]] + (ps[1..] + rest) == ps + rest
  {
    assert [ps[0]] + ps[1..] == ps;
  }

  lemma CommaSplit(a: string, b: string, c: string)
    ensures var s := a + "," + b + c;
      s[0..|a|] == a && s[|a|] == ',' && s[|a| + 1..] == [] + b + c
  {
    var s := a + "," + b + c;
    assert s[|a| + 1..] == b + c;
  }

  lemma ParseJoinOne(s: string, i: nat, ps: seq<Property>, j: nat)
    requires |ps| == 1 && Writable(ps[0])
    requires i <= j <= |s| < SizeRange && s[i..j] == Join(ps)
    requires j == |s| || s[j] == ','
    ensures var next := if j == |s| then j else j + 1;
      ParseFrom(s, i) == Parsed(ps + ParseFrom(s, next).calls, ParseFrom(s, next).error)
  {
    var next := if j == |s| then j else j + 1;
    JoinCons(ps);
    SliceSplit(s, i, j, Entry(ps[0]), "");
    PassOverEntry(s, i, ps[0]);
    ParseStep(s, i, ps[0], next);
    assert ps == [ps[0]];
  }

  lemma JoinCons(ps: seq<Property>)
    requires |ps| >= 1
    ensures Join(ps) == Entry(ps[0]) + if |ps| == 1 then "" else "," + Join(ps[1..])
  {
  }

  /** A pass that reads a pair makes its call before the calls of the rest of the string. */
  lemma ParseStep(s: string, i: nat, p: Property, next: nat)
    requires i <= |s| < SizeRange && PassAt(s, i) == Pair(p.name, p.value, next)
    ensures ParseFrom(s, i) == Parsed([p] + ParseFrom(s, next).calls, ParseFrom(s, next).error)
  {
  }

  /** Nothing left but the end of the string: no call, no exception. */
  lemma ParseAtEnd(s: string, i: nat)
    requires i == |s| < SizeRange
    ensures ParseFrom(s, i) == Parsed([], None)
  {
    FindFirstNotOfIs(s, Whitespace, i, Npos);
  }

  lemma SliceSplit(s: string, i: nat, j: nat, x: string, y: string)
    requires i <= j <= |s| && s[i..j] == x + y
    ensures i + |x| <= j && s[i..i + |x|] == x && s[i + |x|..j] == y
    ensures |y| > 0 ==> s[i + |x|] == y[0]
  {
    assert s[i..j][..|x|] == x;
    assert s[i..j][|x|..] == y;
  }

  /** The pass over one written pair reads it back and steps over the comma that follows. */
  lemma PassOverEntry(s: string, i: nat, p: Property)
    requires Writable(p) && |s| < SizeRange
    requires i + |Entry(p)| <= |s| && s[i..i + |Entry(p)|] == Entry(p)
    requires i + |Entry(p)| == |s| || s[i + |Entry(p)|] == ','
    ensures var end := i + |Entry(p)|;
      PassAt(s, i) == Pair(p.name, p.value, if end == |s| then end else end + 1)
  {
    var nl := |p.name|;
    var e := Entry(p);
    assert s[i..i + nl] == e[..nl] == p.name;
    assert s[i + nl] == e[nl] == '=';
    assert s[i + nl + 1..i + |e|] == e[nl + 1..] == p.value;
    PassOverPair(s, i, p.name, p.value);
  }

  lemma PassOverPair(s: string, i: nat, name: string, value: string)
    requires CleanName(name) && CleanValue(value) && |value| > 0 && |s| < SizeRange
    requires i + |name| + 1 + |value| <= |s|
    requires s[i..i + |name|] == name && s[i + |name|] == '='
    requires s[i + |name| + 1..i + |name| + 1 + |value|] == value
    requires i + |name| + 1 + |value| == |s| || s[i + |name| + 1 + |value|] == ','
    ensures var end := i + |name| + 1 + |value|;
      PassAt(s, i) == Pair(name, value, if end == |s| then end else end + 1)
  {
    var nl := |name|;
    var end := i + nl + 1 + |value|;
    forall k | i <= k < i + nl ensures !In(s[k], NameEnd) {
      assert s[k] == name[k - i];
    }
    forall k | i + nl + 1 <= k < end ensures !In(s[k], ValueEnd) {
      assert s[k] == value[k - i - nl - 1];
    }
    assert s[i + nl + 1] == value[0];
    FindFirstNotOfIs(s, Whitespace, i, i);
    FindFirstOfIs(s, NameEnd, i, i + nl);
    FindFirstNotOfIs(s, NameEnd, i + nl, i + nl + 1);
    FindFirstOfIs(s, ValueEnd, i + nl + 1, if end == |s| then Npos else end);
  }
}

/**
 * The encoding limits of the header looked up and replaced by name: nine names
 * are accepted, case-insensitively, and refer to the limits of the first encoding.
 */
module EncodingLimitNames {
  import opened Errors
  import opened Ismrmrd
  import opened Names

  datatype LimitName =
    | KSpaceEncodingStep1 | KSpaceEncodingStep2 | Average | Slice | Contrast
    | Phase | Repetition | SetName | Segment

  /** The name each limit is looked up by. */
  function Spelling(n: LimitName): string {
    match n
    case KSpaceEncodingStep1 => "kspace_encoding_step_1"
    case KSpaceEncodingStep2 => "kspace_encoding_step_2"
    case Average => "average"
    case Slice => "slice"
    case Contrast => "contrast"
    case Phase => "phase"
    case Repetition => "repetition"
    case SetName => "set"
    case Segment => "segment"
  }

  /** The cascade of case-insensitive comparisons shared by the getter and the setter. */
  function LimitNameOf(name: string): Option<LimitName> {
    if IEquals(name, "kspace_encoding_step_1") then Some(KSpaceEncodingStep1)
    else if IEquals(name, "kspace_encoding_step_2") then Some(KSpaceEncodingStep2)
    else if IEquals(name, "average") then Some(Average)
    else if IEquals(name, "slice") then Some(Slice)
    else if IEquals(name, "contrast") then Some(Contrast)
    else if IEquals(name, "phase") then Some(Phase)
    else if IEquals(name, "repetition") then Some(Repetition)
    else if IEquals(name, "set") then Some(SetName)
    else if IEquals(name, "segment") then Some(Segment)
    else None
  }

  /** Distinct limits are looked up by distinct lower-case names. */
  lemma SpellingsDistinct(n: LimitName, m: LimitName)
    ensures IsLowerCase(Spelling(n))
    ensures Spelling(n) == Spelling(m) ==> n == m
  {
  }

  /** A name selects limit n exactly when it matches n's name, whatever its letter case. */
  lemma {:induction false} LimitNameOfIff(name: string, n: LimitName)
    ensures LimitNameOf(name) == Some(n) <==> IEquals(name, Spelling(n))
  {
    forall m: LimitName | IEquals(name, Spelling(m)) && IEquals(name, Spelling(n))
      ensures m == n
    {
      SpellingsDistinct(m, n);
      SpellingsDistinct(n, m);
      MatchesOneName(name, Spelling(m), Spelling(n));
    }
    assert LimitNameOf(name).Some? ==> IEquals(name, Spelling(LimitNameOf(name).value));
  }

  /** The optional limit a name refers to. */
  function LimitOf(lims: EncodingLimits, n: LimitName): Option<Limit> {
    match n
    case KSpaceEncodingStep1 => lims.kspaceEncodingStep1
    case KSpaceEncodingStep2 => lims.kspaceEncodingStep2
    case Average => lims.average
    case Slice => lims.slice
    case Contrast => lims.contrast
    case Phase => lims.phase
    case Repetition => lims.repetition
    case SetName => lims.setLimit
    case Segment => lims.segment
  }

  /** The limits with the one n refers to replaced. */
  function WithLimit(lims: EncodingLimits, n: LimitName, l: Limit): EncodingLimits {
    match n
    case KSpaceEncodingStep1 => lims.(kspaceEncodingStep1 := Some(l))
    case KSpaceEncodingStep2 => lims.(kspaceEncodingStep2 := Some(l))
    case Average => lims.(average := Some(l))
    case Slice => lims.(slice := Some(l))
    case Contrast => lims.(contrast := Some(l))
    case Phase => lims.(phase := Some(l))
    case Repetition => lims.(repetition := Some(l))
    case SetName => lims.(setLimit := Some(l))
    case Segment => lims.(segment := Some(l))
  }

  /**
   * get_encoding_limits: the header must have an encoding (the first one is read
   * unchecked), the name must be one of the nine, and the limit must be present.
   */
  function GetEncodingLimits(hdr: Header, name: string): Result<Limit> {
    if |hdr.encoding| == 0 then Err(Undefined)
    else match LimitNameOf(name)
      case None => Err(UnknownName)
      case Some(n) =>
        match LimitOf(hdr.encoding[0].encodingLimits, n)
        case None => Err(AbsentValue)
        case Some(l) => Ok(l)
  }

  /** set_encoding_limits: the same checks, then the named limit of the first encoding is replaced. */
  function SetEncodingLimits(hdr: Header, name: string, l: Limit): Result<Header> {
    if |hdr.encoding| == 0 then Err(Undefined)
    else match LimitNameOf(name)
      case None => Err(UnknownName)
      case Some(n) =>
        var lims := hdr.encoding[0].encodingLimits;
        if LimitOf(lims, n).None? then Err(AbsentValue)
        else Ok(hdr.(encoding := hdr.encoding[0 := hdr.encoding[0].(encodingLimits := WithLimit(lims, n, l))]))
  }

  /** Setting succeeds exactly when getting the same name does, and fails the same way. */
  lemma SetDefinedIff(hdr: Header, name: string, l: Limit)
    ensures SetEncodingLimits(hdr, name, l).Ok? <==> GetEncodingLimits(hdr, name).Ok?
    ensures SetEncodingLimits(hdr, name, l).Err? ==>
      SetEncodingLimits(hdr, name, l).error == GetEncodingLimits(hdr, name).error
  {
  }

  /** A limit just set reads back as the triple given. */
  lemma SetThenGet(hdr: Header, name: string, l: Limit)
    requires SetEncodingLimits(hdr, name, l).Ok?
    ensures GetEncodingLimits(SetEncodingLimits(hdr, name, l).value, name) == Ok(l)
  {
    var n := LimitNameOf(name).value;
    var h := SetEncodingLimits(hdr, name, l).value;
    assert LimitOf(h.encoding[0].encodingLimits, n) == Some(l);
  }

  /** Setting one limit leaves the limits under every other name as they were. */
  lemma SetKeepsOtherNames(hdr: Header, name: string, l: Limit, other: string)
    requires SetEncodingLimits(hdr, name, l).Ok? && LimitNameOf(other) != LimitNameOf(name)
    ensures GetEncodingLimits(SetEncodingLimits(hdr, name, l).value, other) == GetEncodingLimits(hdr, other)
  {
    var h := SetEncodingLimits(hdr, name, l).value;
    var n := LimitNameOf(name).value;
    assert h.encoding[0].encodingLimits == WithLimit(hdr.encoding[0].encodingLimits, n, l);
    if LimitNameOf(other).Some? {
      WithLimitKeeps(hdr.encoding[0].encodingLimits, n, LimitNameOf(other).value, l);
    }
  }

  lemma WithLimitKeeps(lims: EncodingLimits, n: LimitName, m: LimitName, l: Limit)
    requires n != m
    ensures LimitOf(WithLimit(lims, n, l), m) == LimitOf(lims, m)
  {
  }

  /** Setting a limit touches the first encoding only. */
  lemma SetKeepsOtherEncodings(hdr: Header, name: string, l: Limit)
    requires SetEncodingLimits(hdr, name, l).Ok?
    ensures var h := SetEncodingLimits(hdr, name, l).value;
      |h.encoding| == |hdr.encoding| && forall e :: 1 <= e < |h.encoding| ==> h.encoding[e] == hdr.encoding[e]
  {
  }

  /** Setting a limit to the value it already has changes nothing. */
  lemma SetWhatIsThere(hdr: Header, name: string)
    requires GetEncodingLimits(hdr, name).Ok?
    ensures SetEncodingLimits(hdr, name, GetEncodingLimits(hdr, name).value) == Ok(hdr)
  {
    var n := LimitNameOf(name).value;
    var lims := hdr.encoding[0].encodingLimits;
    assert WithLimit(lims, n, LimitOf(lims, n).value) == lims;
    assert hdr.encoding[0 := hdr.encoding[0]] == hdr.encoding;
  }
}

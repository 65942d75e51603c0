/**
 * ismrmrd_par_info: the type code (0 integer, 1 floating point) and the number of
 * entries of a named acquisition-header parameter, names compared case-insensitively.
 */
module AcquisitionParameters {
  import opened Names
  import opened Ismrmrd

  /** The two output slots: type code and dimension. */
  datatype Info = Info(kind: int, dim: int)

  predicate IsAnyOf(par: string, names: seq<string>) {
    exists i :: 0 <= i < |names| && IEquals(par, names[i])
  }

  /** Parameters reported as floating point. */
  const FloatNames: seq<string> :=
    ["sample_time_us", "position", "read_dir", "phase_dir", "slice_dir", "patient_table_position", "user_float"]

  /** Parameters with three entries. */
  const VectorNames: seq<string> :=
    ["position", "read_dir", "phase_dir", "slice_dir", "patient_table_position"]

  /** The two chains of comparisons: the type test, then the dimension test, first match winning. */
  function ParInfo(par: string): (r: Info)
    ensures r.kind == 0 || r.kind == 1
    ensures r.dim >= 1
  {
    var kind := if IsAnyOf(par, FloatNames) then 1 else 0;
    var dim :=
      if IEquals(par, "physiology_time_stamp") then PHYS_STAMPS
      else if IEquals(par, "channel_mask") then CHANNEL_MASKS
      else if IsAnyOf(par, VectorNames) then 3
      else if IEquals(par, "user_int") || IEquals(par, "idx_user") then USER_INTS
      else if IEquals(par, "user_float") then USER_FLOATS
      else 1;
    Info(kind, dim)
  }

  /**
   * The documented table, written independently of the comparison chains: every
   * parameter with a non-default answer and that answer.
   */
  const Table: seq<(string, Info)> := [
    ("sample_time_us", Info(1, 1)),
    ("position", Info(1, 3)),
    ("read_dir", Info(1, 3)),
    ("phase_dir", Info(1, 3)),
    ("slice_dir", Info(1, 3)),
    ("patient_table_position", Info(1, 3)),
    ("user_float", Info(1, USER_FLOATS)),
    ("physiology_time_stamp", Info(0, PHYS_STAMPS)),
    ("channel_mask", Info(0, CHANNEL_MASKS)),
    ("user_int", Info(0, USER_INTS)),
    ("idx_user", Info(0, USER_INTS))
  ]

  /** Two table names are told apart by their length or by their first letter. */
  lemma TableNamesApart(j: nat, k: nat)
    requires j < |Table| && k < |Table| && j != k
    ensures |Table[j].0| > 0 && |Table[k].0| > 0
    ensures |Table[j].0| != |Table[k].0| || Lower(Table[j].0[0]) != Lower(Table[k].0[0])
  {
  }

  /** A parameter matching one table name matches no other. */
  lemma MatchesOnlyOne(par: string, j: nat, k: nat)
    requires j < |Table| && k < |Table| && j != k && IEquals(par, Table[j].0)
    ensures !IEquals(par, Table[k].0)
  {
    TableNamesApart(j, k);
    assert Lower(par[0]) == Lower(Table[j].0[0]);
  }

  /** A parameter named in the table, in any letter case, gets the table's answer. */
  lemma ParInfoOfTableEntry(par: string, j: nat)
    requires j < |Table| && IEquals(par, Table[j].0)
    ensures ParInfo(par) == Table[j].1
  {
    forall k | 0 <= k < |Table| && k != j ensures !IEquals(par, Table[k].0) {
      MatchesOnlyOne(par, j, k);
    }
    NamesFromTable(par);
  }

  /** Any other parameter gets the default: integer, one entry. */
  lemma ParInfoDefault(par: string)
    requires forall j :: 0 <= j < |Table| ==> !IEquals(par, Table[j].0)
    ensures ParInfo(par) == Info(0, 1)
  {
    NamesFromTable(par);
  }

  /** The names ParInfo compares against, read off the table. */
  lemma NamesFromTable(par: string)
    ensures IsAnyOf(par, FloatNames) <==> exists j :: 0 <= j < 7 && IEquals(par, Table[j].0)
    ensures IsAnyOf(par, VectorNames) <==> exists j :: 1 <= j < 6 && IEquals(par, Table[j].0)
    ensures Table[6].0 == "user_float" && Table[7].0 == "physiology_time_stamp"
    ensures Table[8].0 == "channel_mask" && Table[9].0 == "user_int" && Table[10].0 == "idx_user"
  {
    assert forall i :: 0 <= i < |FloatNames| ==> FloatNames[i] == Table[i].0;
    assert forall i :: 0 <= i < |VectorNames| ==> VectorNames[i] == Table[i + 1].0;
    if IsAnyOf(par, VectorNames) {
      var i :| 0 <= i < |VectorNames| && IEquals(par, VectorNames[i]);
      assert IEquals(par, Table[i + 1].0);
    }
    if exists j :: 1 <= j < 6 && IEquals(par, Table[j].0) {
      var j :| 1 <= j < 6 && IEquals(par, Table[j].0);
      assert IEquals(par, VectorNames[j - 1]);
    }
  }
}

/**
 * The in-memory tensor configuration: input and output names, CSV overrides, the
 * ordered list of mode records, the values field and the merge reduction.
 */
module TensorConfigs {
  import opened Wrappers
  import opened Strings
  import opened Tallies

  /** The reductions the configuration names (`MERGE_NONE` .. `MERGE_COUNT`). */
  datatype MergeFunc = MergeNone | MergeSum | MergeMin | MergeMax | MergeAvg | MergeCount

  /** One mode record `{field, type, sort}`. */
  datatype Mode = Mode(field: string, transform: Transform, sort: bool)

  /** The `IndexError`s and `AttributeError`s the configuration raises. */
  datatype ConfigError =
    | FieldNotFound(field: string)
    | ModeNotFound(index: int)
    | ListIndexOutOfRange(index: int)
    | NoInputList
    | NoLowerOnInt(value: int)

  /** Every field of a configuration, for stating what a call leaves alone. */
  datatype ConfigState = ConfigState(
    inputs: Option<seq<string>>,
    output: Option<string>,
    delimiter: Option<string>,
    hasHeader: Option<bool>,
    modes: seq<Mode>,
    vals: Option<string>,
    merge: MergeFunc)

  /** Mode fields are compared case-insensitively. */
  predicate FieldMatches(modeField: string, field: string)
  {
    Lower(modeField) == Lower(field)
  }

  /** The position of the first mode whose field matches `field`. */
  function FirstMatch(modes: seq<Mode>, field: string): (r: Option<nat>)
    ensures r.Some? ==> r.value < |modes| && FieldMatches(modes[r.value].field, field)
    ensures r.Some? ==> forall j :: 0 <= j < r.value ==> !FieldMatches(modes[j].field, field)
    ensures r.None? ==> forall j :: 0 <= j < |modes| ==> !FieldMatches(modes[j].field, field)
  {
    if |modes| == 0 then None
    else if FieldMatches(modes[0].field, field) then Some(0)
    else
      match FirstMatch(modes[1..], field)
      case None => None
      case Some(i) => Some(i + 1)
  }

  /** A Python value handed to `get_mode`: a field name, or a mode position. */
  datatype PyArg = PyStr(s: string) | PyInt(i: int)

  /** `arg.lower()`: an int has no `lower` and raises `AttributeError`. */
  function PyLower(arg: PyArg): Result<string, ConfigError>
  {
    match arg
    case PyStr(s) => Success(Lower(s))
    case PyInt(i) => Failure(NoLowerOnInt(i))
  }

  /** `str(arg)`, as `format` writes it into the error message. */
  function PyText(arg: PyArg): string
  {
    match arg
    case PyStr(s) => s
    case PyInt(i) => IntToString(i)
  }

  /**
   * The `get_mode` search: each mode in turn compares its lowered field with
   * `arg.lower()`, so `arg` is lowered only once there is a mode to compare with.
   */
  function ModeLookup(modes: seq<Mode>, arg: PyArg): Result<Mode, ConfigError>
  {
    if |modes| == 0 then Failure(FieldNotFound(PyText(arg)))
    else
      match PyLower(arg)
      case Failure(e) => Failure(e)
      case Success(wanted) =>
        if Lower(modes[0].field) == wanted then Success(modes[0]) else ModeLookup(modes[1..], arg)
  }

  /** Looked up by name, the search finds the first case-insensitive match, else `IndexError`. */
  lemma {:induction false} ModeLookupByName(modes: seq<Mode>, field: string)
    ensures match FirstMatch(modes, field)
      case None => ModeLookup(modes, PyStr(field)) == Failure(FieldNotFound(field))
      case Some(i) => ModeLookup(modes, PyStr(field)) == Success(modes[i])
  {
    if |modes| > 0 && !FieldMatches(modes[0].field, field) {
      ModeLookupByName(modes[1..], field);
    }
  }

  /**
   * Looked up by an int, the search raises `AttributeError` on its first comparison
   * whenever there is a mode; with no modes it raises `IndexError` naming the int.
   */
  lemma ModeLookupByInt(modes: seq<Mode>, i: int)
    ensures |modes| > 0 ==> ModeLookup(modes, PyInt(i)) == Failure(NoLowerOnInt(i))
    ensures |modes| == 0 ==> ModeLookup(modes, PyInt(i)) == Failure(FieldNotFound(IntToString(i)))
  {
  }

  class TensorConfig {
    var inputs: Option<seq<string>>
    var output: Option<string>
    var delimiter: Option<string>
    var hasHeader: Option<bool>
    var modes: seq<Mode>
    var vals: Option<string>
    var merge: MergeFunc

    /** All fields as one value. */
    ghost function State(): ConfigState
      reads this
    {
      ConfigState(inputs, output, delimiter, hasHeader, modes, vals, merge)
    }

    constructor (csvNames: Option<seq<string>> := None, tensorName: Option<string> := None)
      ensures State() == ConfigState(csvNames, tensorName, None, None, [], None, MergeSum)
    {
      inputs, output := csvNames, tensorName;
      delimiter, hasHeader, modes, vals, merge := None, None, [], None, MergeSum;
    }

    method SetDelimiter(delim: Option<string>)
      modifies this
      ensures State() == old(State()).(delimiter := delim)
      ensures GetDelimiter() == delim
    {
      delimiter := delim;
    }

    function GetDelimiter(): Option<string>
      reads this
    {
      delimiter
    }

    method SetHeader(header: Option<bool>)
      modifies this
      ensures State() == old(State()).(hasHeader := header)
      ensures HasHeader() == header
    {
      hasHeader := header;
    }

    function HasHeader(): Option<bool>
      reads this
    {
      hasHeader
    }

    /** Appends one mode record; earlier modes keep their positions and contents. */
    method AddMode(field: string, transform: Transform, sort: bool := true)
      modifies this
      ensures State() == old(State()).(modes := old(modes) + [Mode(field, transform, sort)])
      ensures NumModes() == old(NumModes()) + 1
      ensures GetModeByIdx(old(NumModes())) == Success(Mode(field, transform, sort))
    {
      modes := modes + [Mode(field, transform, sort)];
    }

    method SetVals(field: Option<string>)
      modifies this
      ensures State() == old(State()).(vals := field)
      ensures GetVals() == field
    {
      vals := field;
    }

    function GetVals(): Option<string>
      reads this
    {
      vals
    }

    /** Sets `sort` of the first case-insensitively matching mode, else `IndexError`. */
    method SetModeSort(field: string, toSort: bool) returns (r: Outcome<ConfigError>)
      modifies this
      ensures match FirstMatch(old(modes), field)
        case None => r == Fail(FieldNotFound(field)) && State() == old(State())
        case Some(i) =>
          && r == Pass
          && State() == old(State()).(modes := old(modes)[i := old(modes)[i].(sort := toSort)])
    {
      var idx := 0;
      while idx < |modes|
        invariant 0 <= idx <= |modes|
        invariant State() == old(State())
        invariant forall j :: 0 <= j < idx ==> !FieldMatches(modes[j].field, field)
      {
        if FieldMatches(modes[idx].field, field) {
          modes := modes[idx := modes[idx].(sort := toSort)];
          return Pass;
        }
        idx := idx + 1;
      }
      return Fail(FieldNotFound(field));
    }

    /** Sets `type` of the first case-insensitively matching mode, else `IndexError`. */
    method SetModeType(field: string, transform: Transform) returns (r: Outcome<ConfigError>)
      modifies this
      ensures match FirstMatch(old(modes), field)
        case None => r == Fail(FieldNotFound(field)) && State() == old(State())
        case Some(i) =>
          && r == Pass
          && State() == old(State()).(modes := old(modes)[i := old(modes)[i].(transform := transform)])
    {
      var idx := 0;
      while idx < |modes|
        invariant 0 <= idx <= |modes|
        invariant State() == old(State())
        invariant forall j :: 0 <= j < idx ==> !FieldMatches(modes[j].field, field)
      {
        if FieldMatches(modes[idx].field, field) {
          modes := modes[idx := modes[idx].(transform := transform)];
          return Pass;
        }
        idx := idx + 1;
      }
      return Fail(FieldNotFound(field));
    }

    method SetMergeFunc(f: MergeFunc)
      modifies this
      ensures State() == old(State()).(merge := f)
      ensures GetMergeFunc() == f
    {
      merge := f;
    }

    function GetMergeFunc(): MergeFunc
      reads this
    {
      merge
    }

    /**
     * `get_mode(csv_field)`: the first mode whose field matches a name case-insensitively,
     * else `IndexError`; an int argument raises `AttributeError` once a mode is compared.
     */
    method GetMode(arg: PyArg) returns (r: Result<Mode, ConfigError>)
      ensures r == ModeLookup(modes, arg)
      ensures arg.PyStr? ==> (r.Success? <==> FirstMatch(modes, arg.s).Some?)
      ensures arg.PyStr? && r.Success? ==> r.value == modes[FirstMatch(modes, arg.s).value]
      ensures arg.PyStr? && r.Failure? ==> r.error == FieldNotFound(arg.s)
      ensures arg.PyInt? ==> r.Failure?
    {
      if arg.PyStr? {
        ModeLookupByName(modes, arg.s);
      }
      var idx := 0;
      while idx < |modes|
        invariant 0 <= idx <= |modes|
        invariant ModeLookup(modes[idx..], arg) == ModeLookup(modes, arg)
      {
        var wanted := PyLower(arg);
        if wanted.Failure? {
          return Failure(wanted.error);
        }
        if Lower(modes[idx].field) == wanted.value {
          return Success(modes[idx]);
        }
        assert modes[idx..][1..] == modes[idx + 1..];
        idx := idx + 1;
      }
      return Failure(FieldNotFound(PyText(arg)));
    }

    /**
     * Mode `i`, zero-based: `IndexError` when `i >= num_modes()`; a negative `i`
     * counts from the end, as Python list indexing does, down to `-num_modes()`.
     */
    function GetModeByIdx(i: int): (r: Result<Mode, ConfigError>)
      reads this
      ensures i >= |modes| ==> r == Failure(ModeNotFound(i))
      ensures 0 <= i < |modes| ==> r == Success(modes[i])
      ensures -|modes| <= i < 0 ==> r == Success(modes[|modes| + i])
      ensures i < -|modes| ==> r == Failure(ListIndexOutOfRange(i))
    {
      if i >= |modes| then Failure(ModeNotFound(i))
      else if i >= 0 then Success(modes[i])
      else if i >= -|modes| then Success(modes[|modes| + i])
      else Failure(ListIndexOutOfRange(i))
    }

    /** Appends a file name to the input list; there is no list when none was given. */
    method AddInput(csvFile: string) returns (r: Outcome<ConfigError>)
      modifies this
      ensures old(inputs).None? ==> r == Fail(NoInputList) && State() == old(State())
      ensures old(inputs).Some? ==>
        && r == Pass
        && State() == old(State()).(inputs := Some(old(inputs).value + [csvFile]))
    {
      if inputs.None? {
        return Fail(NoInputList);
      }
      inputs := Some(inputs.value + [csvFile]);
      return Pass;
    }

    function GetInputs(): Option<seq<string>>
      reads this
    {
      inputs
    }

    method SetOutput(filename: Option<string>)
      modifies this
      ensures State() == old(State()).(output := filename)
      ensures GetOutput() == filename
    {
      output := filename;
    }

    function GetOutput(): Option<string>
      reads this
    {
      output
    }

    function NumModes(): (n: nat)
      reads this
    {
      |modes|
    }
  }

  /** Setting a mode's sort and then looking the field up finds the new flag. */
  lemma SetSortThenGet(modes: seq<Mode>, field: string, toSort: bool)
    requires FirstMatch(modes, field).Some?
    ensures var i := FirstMatch(modes, field).value;
      var updated := modes[i := modes[i].(sort := toSort)];
      FirstMatch(updated, field) == Some(i) && updated[i].sort == toSort
      && updated[i].field == modes[i].field && updated[i].transform == modes[i].transform
  {
    var i := FirstMatch(modes, field).value;
    var updated := modes[i := modes[i].(sort := toSort)];
    FirstMatchUnique(updated, field, i);
  }

  /** Setting a mode's type keeps it the first match, with its field and sort unchanged. */
  lemma SetTypeThenGet(modes: seq<Mode>, field: string, transform: Transform)
    requires FirstMatch(modes, field).Some?
    ensures var i := FirstMatch(modes, field).value;
      var updated := modes[i := modes[i].(transform := transform)];
      FirstMatch(updated, field) == Some(i) && updated[i].transform == transform
      && updated[i].field == modes[i].field && updated[i].sort == modes[i].sort
  {
    var i := FirstMatch(modes, field).value;
    var updated := modes[i := modes[i].(transform := transform)];
    FirstMatchUnique(updated, field, i);
  }

  /** A matching position with no match before it is the first match. */
  lemma {:induction false} FirstMatchUnique(modes: seq<Mode>, field: string, i: nat)
    requires i < |modes| && FieldMatches(modes[i].field, field)
    requires forall j :: 0 <= j < i ==> !FieldMatches(modes[j].field, field)
    ensures FirstMatch(modes, field) == Some(i)
  {
  }
}

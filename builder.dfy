/**
 * `build_tensor`: resolve each mode's column in every input, count every row's
 * keys into one index map per mode, build the maps, then emit one coordinate
 * line per row and one key listing per mode.
 *
 * Files are given already parsed: `fs(name)` is the header and the data rows the
 * CSV reader yields for `name`. The tensor file and the map files are returned
 * as sequences of lines.
 */
module Builder {
  import opened Wrappers
  import opened Strings
  import opened Keys
  import opened Tallies
  import opened IndexMaps
  import opened TensorConfigs

  /** One parsed CSV file: its header and its data rows. */
  datatype Input = Input(header: seq<string>, rows: seq<seq<string>>)

  /** The exceptions `build_tensor` can raise, with the file and row they concern. */
  datatype BuildError =
    | NoInputs
    | MissingField(file: string, field: string)
    | ShortRow(file: string, row: nat)
    | NoOutputName
    | MissingValsField(file: string, field: string)

  datatype MapFile = MapFile(name: string, lines: seq<string>)

  /** The tensor file's name and lines, and the map files in mode order. */
  datatype Tensor = Tensor(output: string, lines: seq<string>, maps: seq<MapFile>)

  // ---------------------------------------------------------------------------
  // Column resolution and row checks

  /** `header.index(field)`: the first exactly equal column, if any. */
  function FirstIndex(header: seq<string>, field: string): (r: Option<nat>)
    ensures r.Some? ==> r.value < |header| && header[r.value] == field
    ensures r.Some? ==> forall j :: 0 <= j < r.value ==> header[j] != field
    ensures r.None? <==> field !in header
  {
    if |header| == 0 then None
    else if header[0] == field then Some(0)
    else
      match FirstIndex(header[1..], field)
      case None => None
      case Some(i) => Some(i + 1)
  }

  /** The first mode whose field is not a column of `header`. */
  function FirstMissing(header: seq<string>, modes: seq<Mode>): (r: Option<nat>)
    ensures r.Some? ==> r.value < |modes| && modes[r.value].field !in header
    ensures r.Some? ==> forall j :: 0 <= j < r.value ==> modes[j].field in header
    ensures r.None? <==> forall j :: 0 <= j < |modes| ==> modes[j].field in header
  {
    if |modes| == 0 then None
    else if modes[0].field !in header then Some(0)
    else
      match FirstMissing(header, modes[1..])
      case None => None
      case Some(i) => Some(i + 1)
  }

  /** Every mode's column, or the error for the first mode whose field is missing. */
  function Columns(name: string, header: seq<string>, modes: seq<Mode>): Result<seq<nat>, BuildError>
  {
    match FirstMissing(header, modes)
    case Some(m) => Failure(MissingField(name, modes[m].field))
    case None => Success(seq(|modes|, j requires 0 <= j < |modes| => FirstIndex(header, modes[j].field).value))
  }

  /** `row[c]` exists for every column `c` in `cols`. */
  predicate Fits(row: seq<string>, cols: seq<nat>)
  {
    forall j :: 0 <= j < |cols| ==> cols[j] < |row|
  }

  /** The first row too short for one of the columns. */
  function FirstShortRow(rows: seq<seq<string>>, cols: seq<nat>): (r: Option<nat>)
    ensures r.Some? ==> r.value < |rows| && !Fits(rows[r.value], cols)
    ensures r.Some? ==> forall i :: 0 <= i < r.value ==> Fits(rows[i], cols)
    ensures r.None? <==> forall i :: 0 <= i < |rows| ==> Fits(rows[i], cols)
  {
    if |rows| == 0 then None
    else if !Fits(rows[0], cols) then Some(0)
    else
      match FirstShortRow(rows[1..], cols)
      case None => None
      case Some(i) => Some(i + 1)
  }

  /** The values a row gives the modes, `row[cols[m]]` for each mode `m`. */
  function Project(row: seq<string>, cols: seq<nat>): seq<string>
    requires Fits(row, cols)
  {
    seq(|cols|, j requires 0 <= j < |cols| => row[cols[j]])
  }

  /** Each row cut down to the cells named by `cols`, in that order. */
  function Records(rows: seq<seq<string>>, cols: seq<nat>): seq<seq<string>>
    requires forall i :: 0 <= i < |rows| ==> Fits(rows[i], cols)
  {
    seq(|rows|, i requires 0 <= i < |rows| => Project(rows[i], cols))
  }

  /** Every record holds one value per mode. */
  predicate Rectangular(recs: seq<seq<string>>, n: nat)
  {
    forall i :: 0 <= i < |recs| ==> |recs[i]| == n
  }

  /** Mode `j`'s values, record by record. */
  function Column(recs: seq<seq<string>>, j: nat): seq<string>
    requires forall i :: 0 <= i < |recs| ==> j < |recs[i]|
  {
    seq(|recs|, i requires 0 <= i < |recs| => recs[i][j])
  }

  // ---------------------------------------------------------------------------
  // The two passes over one file

  /** The counting pass over one file: the mode values of each row, in row order. */
  function ScanFile(name: string, inp: Input, modes: seq<Mode>): (r: Result<seq<seq<string>>, BuildError>)
    ensures r.Success? ==> |r.value| == |inp.rows| && Rectangular(r.value, |modes|)
  {
    match Columns(name, inp.header, modes)
    case Failure(e) => Failure(e)
    case Success(cols) =>
      match FirstShortRow(inp.rows, cols)
      case Some(i) => Failure(ShortRow(name, i))
      case None => Success(Records(inp.rows, cols))
  }

  /** `if val_field:` — an empty field name counts as no values field. */
  predicate ValsActive(vals: Option<string>)
  {
    vals.Some? && vals.value != ""
  }

  /** The value written at the end of each row's line: the values column, else "1". */
  function ValueFile(name: string, inp: Input, vals: Option<string>): (r: Result<seq<string>, BuildError>)
    ensures r.Success? ==> |r.value| == |inp.rows|
  {
    if !ValsActive(vals) then Success(Ones(|inp.rows|))
    else
      match FirstIndex(inp.header, vals.value)
      case None => Failure(MissingValsField(name, vals.value))
      case Some(c) => ValueColumn(name, inp.rows, c)
  }

  /** `val = 1`, for rows when no values field is set. */
  function Ones(n: nat): seq<string>
  {
    seq(n, _ => "1")
  }

  /** `row[c]` of every row, or the first row that has no column `c`. */
  function ValueColumn(name: string, rows: seq<seq<string>>, c: nat): (r: Result<seq<string>, BuildError>)
    ensures r.Success? ==> |r.value| == |rows|
  {
    match FirstShortRow(rows, [c])
    case Some(i) => Failure(ShortRow(name, i))
    case None => FitsColumn(rows, c); Success(Picked(rows, c))
  }

  /** Cell `c` of every row, in row order. */
  function Picked(rows: seq<seq<string>>, c: nat): (r: seq<string>)
    requires forall i :: 0 <= i < |rows| ==> c < |rows[i]|
  {
    seq(|rows|, i requires 0 <= i < |rows| => rows[i][c])
  }

  /** `Picked` extends by one cell per extra row. */
  lemma PickedSnoc(rows: seq<seq<string>>, c: nat, i: nat)
    requires i < |rows| && forall i' :: 0 <= i' <= i ==> c < |rows[i']|
    ensures Picked(rows[..i + 1], c) == Picked(rows[..i], c) + [rows[i][c]]
  {
  }

  /** Every row fits the single column `c` exactly when every row is longer than `c`. */
  lemma FitsColumn(rows: seq<seq<string>>, c: nat)
    ensures (forall i :: 0 <= i < |rows| ==> Fits(rows[i], [c])) <==> (forall i :: 0 <= i < |rows| ==> c < |rows[i]|)
  {
    forall i | 0 <= i < |rows| {
      FitsOne(rows[i], c);
    }
  }

  /** A row fits `[c]` exactly when it has a cell `c`. */
  lemma FitsOne(row: seq<string>, c: nat)
    ensures Fits(row, [c]) <==> c < |row|
  {
    if Fits(row, [c]) {
      assert [c][0] == c;
    }
  }

  // ---------------------------------------------------------------------------
  // Files in order

  /** Results of successive files, concatenated; the first failure stops the pass. */
  function Then<X>(a: Result<seq<X>, BuildError>, b: Result<seq<X>, BuildError>): Result<seq<X>, BuildError>
  {
    if a.Failure? then a else if b.Failure? then b else Success(a.value + b.value)
  }

  /** One pass over the input files, in order. */
  function Gather<X>(names: seq<string>, step: string -> Result<seq<X>, BuildError>): Result<seq<X>, BuildError>
    decreases |names|
  {
    if |names| == 0 then Success([])
    else Then(Gather(names[..|names| - 1], step), step(names[|names| - 1]))
  }

  /** The counting pass over one named file. */
  function ScanStep(fs: string -> Input, modes: seq<Mode>): string -> Result<seq<seq<string>>, BuildError>
  {
    name => ScanFile(name, fs(name), modes)
  }

  /** The value pass over one named file. */
  function ValueStep(fs: string -> Input, vals: Option<string>): string -> Result<seq<string>, BuildError>
  {
    name => ValueFile(name, fs(name), vals)
  }

  /** The number of data rows over all input files. */
  function TotalRows(names: seq<string>, fs: string -> Input): nat
    decreases |names|
  {
    if |names| == 0 then 0 else TotalRows(names[..|names| - 1], fs) + |fs(names[|names| - 1]).rows|
  }

  // ---------------------------------------------------------------------------
  // Index maps and output lines

  /** The counter mode `j`'s map holds after the counting pass. */
  function TallyOf(recs: seq<seq<string>>, modes: seq<Mode>, j: nat): Tally
    requires j < |modes| && Rectangular(recs, |modes|)
  {
    Tallied(Empty, modes[j].transform, Column(recs, j))
  }

  /** The keys of mode `j` in the order `build_map` numbers them. */
  function DenseOrder(recs: seq<seq<string>>, modes: seq<Mode>, j: nat): seq<Key>
    requires j < |modes| && Rectangular(recs, |modes|)
  {
    var t := TallyOf(recs, modes, j);
    Ordered(Survivors(t.order, t.counts), modes[j].sort)
  }

  /** Every mode's numbering after `build_map`. */
  function Numbering(recs: seq<seq<string>>, modes: seq<Mode>): seq<map<Key, int>>
    requires Rectangular(recs, |modes|)
  {
    seq(|modes|, j requires 0 <= j < |modes| => DenseMap(TallyOf(recs, modes, j), modes[j].sort))
  }

  /** `indmaps[m][raw]` once built: the number of the transformed key, if it has one. */
  function Lookup(tf: Transform, dense: map<Key, int>, raw: string): Option<int>
  {
    match tf(raw)
    case None => None
    case Some(k) => if k in dense then Some(dense[k]) else None
  }

  /** `str(...)` of a lookup result. */
  function Show(o: Option<int>): string
  {
    match o
    case None => "None"
    case Some(i) => IntToString(i)
  }

  /** The index text of each mode for one record, in mode order. */
  function Tokens(rec: seq<string>, modes: seq<Mode>, dense: seq<map<Key, int>>): seq<string>
    requires |rec| == |modes| == |dense|
  {
    seq(|modes|, j requires 0 <= j < |modes| => Show(Lookup(modes[j].transform, dense[j], rec[j])))
  }

  /** One output line: the modes' indices space-joined, a space, the value. */
  function Line(rec: seq<string>, value: string, modes: seq<Mode>, dense: seq<map<Key, int>>): string
    requires |rec| == |modes| == |dense|
  {
    Join(" ", Tokens(rec, modes, dense)) + " " + value
  }

  /** The output lines: one per record, in record order. */
  function Render(recs: seq<seq<string>>, values: seq<string>, modes: seq<Mode>, dense: seq<map<Key, int>>): seq<string>
    requires |values| == |recs| && Rectangular(recs, |modes|) && |dense| == |modes|
  {
    seq(|recs|, i requires 0 <= i < |recs| => Line(recs[i], values[i], modes, dense))
  }

  /** `'mode-{}-{}.map'.format(m + 1, field)`. */
  function MapFileName(m: nat, field: string): string
  {
    "mode-" + NatToString(m + 1) + "-" + field + ".map"
  }

  /** A digit string followed by a dash is read back unambiguously. */
  lemma DigitsThenDash(a: string, f1: string, b: string, f2: string)
    requires forall i :: 0 <= i < |a| ==> IsDigit(a[i])
    requires forall i :: 0 <= i < |b| ==> IsDigit(b[i])
    ensures a + "-" + f1 == b + "-" + f2 ==> a == b
  {
    if |a| < |b| {
      assert (a + "-" + f1)[|a|] == '-';
      assert (b + "-" + f2)[|a|] == b[|a|];
    } else if |b| < |a| {
      assert (b + "-" + f2)[|b|] == '-';
      assert (a + "-" + f1)[|b|] == a[|b|];
    } else {
      assert (a + "-" + f1)[..|a|] == a;
      assert (b + "-" + f2)[..|b|] == b;
    }
  }

  /** Different modes are written to different map files, whatever their fields. */
  lemma MapFileNamesDistinct(m1: nat, f1: string, m2: nat, f2: string)
    requires m1 != m2
    ensures MapFileName(m1, f1) != MapFileName(m2, f2)
  {
    var a, b := NatToString(m1 + 1), NatToString(m2 + 1);
    assert MapFileName(m1, f1)[5..] == a + "-" + (f1 + ".map");
    assert MapFileName(m2, f2)[5..] == b + "-" + (f2 + ".map");
    DigitsThenDash(a, f1 + ".map", b, f2 + ".map");
    if a == b {
      NatToStringInjective(m1 + 1, m2 + 1);
    }
  }

  /** The key numbered `i + 1` on line `i`. */
  function Listing(u: seq<Key>): seq<string>
  {
    seq(|u|, i requires 0 <= i < |u| => KeyText(u[i]))
  }

  /** One map file per mode, in mode order, listing the mode's keys by index. */
  function MapFiles(recs: seq<seq<string>>, modes: seq<Mode>): seq<MapFile>
    requires Rectangular(recs, |modes|)
  {
    seq(|modes|, j requires 0 <= j < |modes| =>
      MapFile(MapFileName(j, modes[j].field), Listing(DenseOrder(recs, modes, j))))
  }

  /** No two modes share a map file, even when their fields coincide. */
  lemma MapFilesDistinct(recs: seq<seq<string>>, modes: seq<Mode>, files: seq<MapFile>)
    requires Rectangular(recs, |modes|) && files == MapFiles(recs, modes)
    ensures |files| == |modes|
    ensures forall i, j :: 0 <= i < j < |files| ==> files[i].name != files[j].name
  {
    forall i, j | 0 <= i < j < |files|
      ensures files[i].name != files[j].name
    {
      MapFileNamesDistinct(i, modes[i].field, j, modes[j].field);
    }
  }


  /**
   * What `build_tensor` produces from a configuration: the first error in the
   * order the program meets it, else the tensor lines and the map files.
   */
  function Build(inputs: Option<seq<string>>, output: Option<string>, modes: seq<Mode>,
                 vals: Option<string>, fs: string -> Input): Result<Tensor, BuildError>
  {
    if inputs.None? then Failure(NoInputs)
    else
      match Gather(inputs.value, ScanStep(fs, modes))
      case Failure(e) => Failure(e)
      case Success(recs) =>
        if output.None? then Failure(NoOutputName)
        else
          match Gather(inputs.value, ValueStep(fs, vals))
          case Failure(e) => Failure(e)
          case Success(values) =>
            ScanShape(inputs.value, fs, modes);
            ValueShape(inputs.value, fs, vals);
            Success(Tensor(output.value, Render(recs, values, modes, Numbering(recs, modes)),
                           MapFiles(recs, modes)))
  }

  // ---------------------------------------------------------------------------
  // Lemmas about the passes

  /** Adding one more file to a pass. */
  lemma GatherSnoc<X>(names: seq<string>, step: string -> Result<seq<X>, BuildError>, f: nat)
    requires f < |names|
    ensures Gather(names[..f + 1], step) == Then(Gather(names[..f], step), step(names[f]))
  {
    assert names[..f + 1][..f] == names[..f];
  }

  /** Once a pass has failed on a prefix of the files, it fails with that error. */
  lemma {:induction false} GatherPersists<X>(names: seq<string>, step: string -> Result<seq<X>, BuildError>, k: nat)
    requires k <= |names| && Gather(names[..k], step).Failure?
    ensures Gather(names, step) == Gather(names[..k], step)
    decreases |names|
  {
    if k < |names| {
      var init := names[..|names| - 1];
      assert init[..k] == names[..k];
      GatherPersists(init, step, k);
    } else {
      assert names[..k] == names;
    }
  }

  /** A pass that succeeds on all files succeeds on each prefix, file by file. */
  lemma GatherPrefix<X>(names: seq<string>, step: string -> Result<seq<X>, BuildError>, f: nat)
    requires f < |names| && Gather(names, step).Success?
    ensures Gather(names[..f], step).Success? && step(names[f]).Success?
    ensures Gather(names[..f + 1], step) == Success(Gather(names[..f], step).value + step(names[f]).value)
  {
    GatherSnoc(names, step, f);
    if Gather(names[..f + 1], step).Failure? {
      GatherPersists(names, step, f + 1);
    }
  }

  /**
   * A pass succeeds exactly when every file does; a failed pass reports the error
   * of a file all of whose predecessors succeeded.
   */
  lemma {:induction false} GatherOutcome<X>(names: seq<string>, step: string -> Result<seq<X>, BuildError>)
    ensures Gather(names, step).Success? <==> forall i :: 0 <= i < |names| ==> step(names[i]).Success?
    ensures Gather(names, step).Failure? ==>
      exists i :: 0 <= i < |names| && step(names[i]) == Failure(Gather(names, step).error)
                  && forall j :: 0 <= j < i ==> step(names[j]).Success?
    decreases |names|
  {
    if |names| > 0 {
      var init := names[..|names| - 1];
      GatherOutcome(init, step);
      assert forall i :: 0 <= i < |init| ==> init[i] == names[i];
    }
  }

  /** The counting pass yields one record per data row, with one value per mode. */
  lemma {:induction false} ScanShape(names: seq<string>, fs: string -> Input, modes: seq<Mode>)
    ensures Gather(names, ScanStep(fs, modes)).Success? ==>
      var recs := Gather(names, ScanStep(fs, modes)).value;
      |recs| == TotalRows(names, fs) && Rectangular(recs, |modes|)
    decreases |names|
  {
    if |names| > 0 {
      ScanShape(names[..|names| - 1], fs, modes);
    }
  }

  /** The values pass yields one value per data row. */
  lemma {:induction false} ValueShape(names: seq<string>, fs: string -> Input, vals: Option<string>)
    ensures Gather(names, ValueStep(fs, vals)).Success? ==>
      |Gather(names, ValueStep(fs, vals)).value| == TotalRows(names, fs)
    decreases |names|
  {
    if |names| > 0 {
      ValueShape(names[..|names| - 1], fs, vals);
    }
  }

  /**
   * One file's counting pass succeeds exactly when every mode's field is a column
   * and every row reaches every such column; record `i` then holds, for mode `m`,
   * row `i`'s value in the first column named like the mode's field.
   */
  lemma ScanFileMeaning(name: string, inp: Input, modes: seq<Mode>)
    ensures ScanFile(name, inp, modes).Success? <==>
      && (forall m :: 0 <= m < |modes| ==> modes[m].field in inp.header)
      && (forall i, m :: 0 <= i < |inp.rows| && 0 <= m < |modes| ==>
            FirstIndex(inp.header, modes[m].field).value < |inp.rows[i]|)
    ensures ScanFile(name, inp, modes).Success? ==>
      forall i, m :: 0 <= i < |inp.rows| && 0 <= m < |modes| ==>
        ScanFile(name, inp, modes).value[i][m] == inp.rows[i][FirstIndex(inp.header, modes[m].field).value]
  {
    match FirstMissing(inp.header, modes)
    case Some(m) =>
      assert modes[m].field !in inp.header;
    case None =>
      var cols := Columns(name, inp.header, modes).value;
      assert forall m :: 0 <= m < |modes| ==> cols[m] == FirstIndex(inp.header, modes[m].field).value;
      match FirstShortRow(inp.rows, cols)
      case Some(i) =>
        var m :| 0 <= m < |cols| && cols[m] >= |inp.rows[i]|;
        assert FirstIndex(inp.header, modes[m].field).value >= |inp.rows[i]|;
      case None =>
        forall i, m | 0 <= i < |inp.rows| && 0 <= m < |modes|
          ensures FirstIndex(inp.header, modes[m].field).value < |inp.rows[i]|
        {
          assert Fits(inp.rows[i], cols);
        }
  }

  /** A values field missing from a file's header is an error for that file. */
  lemma ValueFileMeaning(name: string, inp: Input, vals: Option<string>)
    ensures !ValsActive(vals) ==>
      && ValueFile(name, inp, vals).Success?
      && forall i :: 0 <= i < |inp.rows| ==> ValueFile(name, inp, vals).value[i] == "1"
    ensures ValsActive(vals) && vals.value !in inp.header ==>
      ValueFile(name, inp, vals) == Failure(MissingValsField(name, vals.value))
    ensures ValsActive(vals) && vals.value in inp.header ==>
      var c := FirstIndex(inp.header, vals.value).value;
      && (ValueFile(name, inp, vals).Success? <==> forall i :: 0 <= i < |inp.rows| ==> c < |inp.rows[i]|)
      && (ValueFile(name, inp, vals).Success? ==>
            forall i :: 0 <= i < |inp.rows| ==> ValueFile(name, inp, vals).value[i] == inp.rows[i][c])
  {
    if ValsActive(vals) && vals.value in inp.header {
      var c := FirstIndex(inp.header, vals.value).value;
      forall i | 0 <= i < |inp.rows| {
        FitsOne(inp.rows[i], c);
      }
    }
  }

  // ---------------------------------------------------------------------------
  // Lemmas about the output

  /** How many values of `vs` transform to `k` is positive iff some value does. */
  lemma {:induction false} OccursSomewhere(vs: seq<string>, tf: Transform, k: Key)
    ensures Occurrences(vs, tf, k) > 0 <==> exists i :: 0 <= i < |vs| && tf(vs[i]) == Some(k)
    decreases |vs|
  {
    if |vs| > 0 {
      var init := vs[..|vs| - 1];
      OccursSomewhere(init, tf, k);
      assert forall i :: 0 <= i < |init| ==> init[i] == vs[i];
    }
  }

  /**
   * Every emitted index of a key whose transform succeeded lies in `1..U`, where
   * `U` is the number of distinct transformed keys of the mode's column; a key
   * whose transform failed is emitted as `None`.
   */
  lemma IndexBounds(recs: seq<seq<string>>, modes: seq<Mode>, i: nat, m: nat)
    requires Rectangular(recs, |modes|) && i < |recs| && m < |modes|
    ensures var d := Numbering(recs, modes)[m];
      var raw := recs[i][m];
      var tf := modes[m].transform;
      && d.Keys == (set r | 0 <= r < |recs| && tf(recs[r][m]).Some? :: tf(recs[r][m]).value)
      && (tf(raw).None? ==> Show(Lookup(tf, d, raw)) == "None")
      && (tf(raw).Some? ==> tf(raw).value in d && 1 <= d[tf(raw).value] <= |d|
                              && Lookup(tf, d, raw) == Some(d[tf(raw).value]))
  {
    var tf := modes[m].transform;
    var col := Column(recs, m);
    NumberedKeys(tf, col, modes[m].sort);
    var d := Numbering(recs, modes)[m];
    assert d == DenseMap(Tallied(Empty, tf, col), modes[m].sort);
    ColumnKeys(recs, modes, m);
    var raw := recs[i][m];
    if tf(raw).Some? {
      assert tf(col[i]).Some?;
    }
  }

  /** The keys a column yields are the keys its records yield at that mode. */
  lemma ColumnKeys(recs: seq<seq<string>>, modes: seq<Mode>, m: nat)
    requires Rectangular(recs, |modes|) && m < |modes|
    ensures var tf := modes[m].transform;
      var col := Column(recs, m);
      (set r | 0 <= r < |col| && tf(col[r]).Some? :: tf(col[r]).value)
        == (set r | 0 <= r < |recs| && tf(recs[r][m]).Some? :: tf(recs[r][m]).value)
  {
    var tf := modes[m].transform;
    var col := Column(recs, m);
    var byCol := set r | 0 <= r < |col| && tf(col[r]).Some? :: tf(col[r]).value;
    var byRec := set r | 0 <= r < |recs| && tf(recs[r][m]).Some? :: tf(recs[r][m]).value;
    forall k | k in byCol
      ensures k in byRec
    {
      var r :| 0 <= r < |col| && tf(col[r]).Some? && tf(col[r]).value == k;
      assert col[r] == recs[r][m];
    }
    forall k | k in byRec
      ensures k in byCol
    {
      var r :| 0 <= r < |recs| && tf(recs[r][m]).Some? && tf(recs[r][m]).value == k;
      assert col[r] == recs[r][m];
    }
    assert byCol == byRec;
  }

  /** The numbered keys of a column are exactly its successfully transformed values. */
  lemma NumberedKeys(tf: Transform, vs: seq<string>, sort: bool)
    ensures var d := DenseMap(Tallied(Empty, tf, vs), sort);
      d.Keys == (set r | 0 <= r < |vs| && tf(vs[r]).Some? :: tf(vs[r]).value) && IsDense(d)
  {
    var t := Tallied(Empty, tf, vs);
    DenseMapDomain(t, sort);
    var d := DenseMap(t, sort);
    forall k
      ensures k in d <==> exists r :: 0 <= r < |vs| && tf(vs[r]) == Some(k)
    {
      NumberedKey(tf, vs, sort, k);
    }
    HitKeys(tf, vs, d);
  }

  /** A map holding exactly the keys some value transforms to has those keys as its domain. */
  lemma HitKeys(tf: Transform, vs: seq<string>, d: map<Key, int>)
    requires forall k :: k in d <==> exists r :: 0 <= r < |vs| && tf(vs[r]) == Some(k)
    ensures d.Keys == set r | 0 <= r < |vs| && tf(vs[r]).Some? :: tf(vs[r]).value
  {
    var keys := set r | 0 <= r < |vs| && tf(vs[r]).Some? :: tf(vs[r]).value;
    forall k | k in d
      ensures k in keys
    {
      var r :| 0 <= r < |vs| && tf(vs[r]) == Some(k);
    }
  }

  /** A key is numbered exactly when some value of the column maps to it. */
  lemma NumberedKey(tf: Transform, vs: seq<string>, sort: bool, k: Key)
    ensures k in DenseMap(Tallied(Empty, tf, vs), sort) <==> exists r :: 0 <= r < |vs| && tf(vs[r]) == Some(k)
  {
    var t := Tallied(Empty, tf, vs);
    DenseMapDomain(t, sort);
    CountingPass(tf, vs, k);
    OccursSomewhere(vs, tf, k);
  }

  /** A listing written from a dense numbering of `u` is `u`'s keys in order. */
  lemma ListingInverse(u: seq<Key>, e: map<Key, int>, lines: seq<string>)
    requires Distinct(u) && e == Enumerate(u)
    requires |lines| == |u|
    requires forall k :: k in e ==> lines[e[k] - 1] == KeyText(k)
    ensures lines == Listing(u)
  {
    EnumerateNumbers(u);
    InverseOf(u, e, lines);
  }

  /** Lines that place the text of each key at its index are the listing of the keys. */
  lemma InverseOf(u: seq<Key>, e: map<Key, int>, lines: seq<string>)
    requires |lines| == |u|
    requires forall i :: 0 <= i < |u| ==> u[i] in e && e[u[i]] == i + 1
    requires forall k :: k in e ==> 1 <= e[k] <= |lines| && lines[e[k] - 1] == KeyText(k)
    ensures lines == Listing(u)
  {
    forall i | 0 <= i < |u|
      ensures lines[i] == KeyText(u[i])
    {
      var k := u[i];
      assert lines[e[k] - 1] == KeyText(k);
    }
  }

  /** A successful build writes one line per data row and one map file per mode. */
  lemma BuildShape(inputs: Option<seq<string>>, output: Option<string>, modes: seq<Mode>,
                   vals: Option<string>, fs: string -> Input)
    requires Build(inputs, output, modes, vals, fs).Success?
    ensures inputs.Some? && output.Some?
    ensures Gather(inputs.value, ScanStep(fs, modes)).Success?
    ensures var t := Build(inputs, output, modes, vals, fs).value;
      var recs := Gather(inputs.value, ScanStep(fs, modes)).value;
      && t.output == output.value
      && |t.lines| == TotalRows(inputs.value, fs)
      && Rectangular(recs, |modes|)
      && t.maps == MapFiles(recs, modes)
  {
    ScanShape(inputs.value, fs, modes);
    ValueShape(inputs.value, fs, vals);
  }

  /** In a successful pass, file `f`'s entry `i` follows the entries of the files before it. */
  lemma {:induction false} GatherAt<X>(names: seq<string>, step: string -> Result<seq<X>, BuildError>, f: nat, i: nat)
    requires f < |names| && Gather(names, step).Success?
    ensures Gather(names[..f], step).Success? && step(names[f]).Success?
    ensures i < |step(names[f]).value| ==>
      var off := |Gather(names[..f], step).value|;
      off + i < |Gather(names, step).value| && Gather(names, step).value[off + i] == step(names[f]).value[i]
    decreases |names|
  {
    var init := names[..|names| - 1];
    if f == |names| - 1 {
      assert names[..f] == init;
    } else {
      assert init[..f] == names[..f] && init[f] == names[f];
      GatherAt(init, step, f, i);
    }
  }

  /** A successful build renders the records of both passes with the built numbering. */
  lemma BuildLines(inputs: Option<seq<string>>, output: Option<string>, modes: seq<Mode>,
                   vals: Option<string>, fs: string -> Input, t: Tensor, recs: seq<seq<string>>, vs: seq<string>)
    requires Build(inputs, output, modes, vals, fs) == Success(t) && inputs.Some?
    requires Gather(inputs.value, ScanStep(fs, modes)) == Success(recs)
    requires Gather(inputs.value, ValueStep(fs, vals)) == Success(vs)
    ensures Rectangular(recs, |modes|) && |vs| == |recs| == TotalRows(inputs.value, fs)
    ensures t.lines == Render(recs, vs, modes, Numbering(recs, modes))
  {
    ScanShape(inputs.value, fs, modes);
    ValueShape(inputs.value, fs, vals);
  }

  /**
   * Line `TotalRows(files before f) + i` of the tensor renders row `i` of file `f`:
   * that row's mode values and its value.
   */
  /** Line `TotalRows(files before f) + i` of a successful build renders row `i` of file `f`. */
  lemma BuildLineAt(inputs: Option<seq<string>>, output: Option<string>, modes: seq<Mode>,
                    vals: Option<string>, fs: string -> Input, t: Tensor,
                    recs: seq<seq<string>>, vs: seq<string>, f: nat, i: nat)
    requires Build(inputs, output, modes, vals, fs) == Success(t)
    requires inputs.Some? && f < |inputs.value| && i < |fs(inputs.value[f]).rows|
    requires Gather(inputs.value, ScanStep(fs, modes)) == Success(recs)
    requires Gather(inputs.value, ValueStep(fs, vals)) == Success(vs)
    ensures var name := inputs.value[f];
      ScanFile(name, fs(name), modes).Success? && ValueFile(name, fs(name), vals).Success?
    ensures var name := inputs.value[f];
      var k := TotalRows(inputs.value[..f], fs) + i;
      && Rectangular(recs, |modes|) && k < |t.lines| == |recs| == |vs|
      && recs[k] == ScanFile(name, fs(name), modes).value[i]
      && vs[k] == ValueFile(name, fs(name), vals).value[i]
      && t.lines[k] == Line(recs[k], vs[k], modes, Numbering(recs, modes))
  {
    PassesAt(inputs.value, fs, modes, vals, recs, vs, f, i);
    BuildLineOf(inputs, output, modes, vals, fs, t, recs, vs, TotalRows(inputs.value[..f], fs) + i);
  }

  /** Line `k` of the output renders entry `k` of the two passes. */
  lemma BuildLineOf(inputs: Option<seq<string>>, output: Option<string>, modes: seq<Mode>,
                    vals: Option<string>, fs: string -> Input, t: Tensor,
                    recs: seq<seq<string>>, vs: seq<string>, k: nat)
    requires Build(inputs, output, modes, vals, fs) == Success(t)
    requires inputs.Some? && k < |recs|
    requires Gather(inputs.value, ScanStep(fs, modes)) == Success(recs)
    requires Gather(inputs.value, ValueStep(fs, vals)) == Success(vs)
    ensures Rectangular(recs, |modes|) && |t.lines| == |recs| == |vs|
    ensures t.lines[k] == Line(recs[k], vs[k], modes, Numbering(recs, modes))
  {
    BuildLines(inputs, output, modes, vals, fs, t, recs, vs);
    RenderAt(recs, vs, modes, Numbering(recs, modes), k);
  }

  /** Entry `TotalRows(files before f) + i` of both passes comes from row `i` of file `f`. */
  lemma PassesAt(names: seq<string>, fs: string -> Input, modes: seq<Mode>, vals: Option<string>,
                 recs: seq<seq<string>>, vs: seq<string>, f: nat, i: nat)
    requires Gather(names, ScanStep(fs, modes)) == Success(recs)
    requires Gather(names, ValueStep(fs, vals)) == Success(vs)
    requires f < |names| && i < |fs(names[f]).rows|
    ensures ScanFile(names[f], fs(names[f]), modes).Success? && ValueFile(names[f], fs(names[f]), vals).Success?
    ensures var k := TotalRows(names[..f], fs) + i;
      && k < |recs| == |vs| && Rectangular(recs, |modes|)
      && recs[k] == ScanFile(names[f], fs(names[f]), modes).value[i]
      && vs[k] == ValueFile(names[f], fs(names[f]), vals).value[i]
  {
    ScanAt(names, fs, modes, recs, f, i);
    ValueAt(names, fs, vals, vs, f, i);
    ScanShape(names, fs, modes);
    ValueShape(names, fs, vals);
  }

  /** Record `TotalRows(files before f) + i` of the counting pass is row `i` of file `f`'s. */
  lemma ScanAt(names: seq<string>, fs: string -> Input, modes: seq<Mode>, recs: seq<seq<string>>, f: nat, i: nat)
    requires Gather(names, ScanStep(fs, modes)) == Success(recs)
    requires f < |names| && i < |fs(names[f]).rows|
    ensures ScanFile(names[f], fs(names[f]), modes).Success?
    ensures var k := TotalRows(names[..f], fs) + i;
      k < |recs| && recs[k] == ScanFile(names[f], fs(names[f]), modes).value[i]
  {
    var scan := ScanStep(fs, modes);
    GatherAt(names, scan, f, i);
    assert scan(names[f]) == ScanFile(names[f], fs(names[f]), modes);
    ScanShape(names[..f], fs, modes);
  }

  /** Value `TotalRows(files before f) + i` of the values pass is row `i` of file `f`'s. */
  lemma ValueAt(names: seq<string>, fs: string -> Input, vals: Option<string>, vs: seq<string>, f: nat, i: nat)
    requires Gather(names, ValueStep(fs, vals)) == Success(vs)
    requires f < |names| && i < |fs(names[f]).rows|
    ensures ValueFile(names[f], fs(names[f]), vals).Success?
    ensures var k := TotalRows(names[..f], fs) + i;
      k < |vs| && vs[k] == ValueFile(names[f], fs(names[f]), vals).value[i]
  {
    var values := ValueStep(fs, vals);
    GatherAt(names, values, f, i);
    assert values(names[f]) == ValueFile(names[f], fs(names[f]), vals);
    ValueShape(names[..f], fs, vals);
  }

  /** Entry `k` of a rendering is the line of record `k` and value `k`. */
  lemma RenderAt(recs: seq<seq<string>>, values: seq<string>, modes: seq<Mode>, dense: seq<map<Key, int>>, k: nat)
    requires |values| == |recs| && Rectangular(recs, |modes|) && |dense| == |modes| && k < |recs|
    ensures |Render(recs, values, modes, dense)| == |recs|
    ensures Render(recs, values, modes, dense)[k] == Line(recs[k], values[k], modes, dense)
  {
  }

  /**
   * Map file `m` is named after the mode's position and field, and its line `i`
   * is the key numbered `i + 1`: the inverse of the mode's numbering.
   */
  lemma MapFileListing(recs: seq<seq<string>>, modes: seq<Mode>, m: nat, f: MapFile, d: map<Key, int>)
    requires Rectangular(recs, |modes|) && m < |modes|
    requires f == MapFiles(recs, modes)[m] && d == Numbering(recs, modes)[m]
    ensures f.name == MapFileName(m, modes[m].field)
    ensures |f.lines| == |d|
    ensures forall k :: k in d ==> f.lines[d[k] - 1] == KeyText(k)
  {
    var u := DenseOrder(recs, modes, m);
    assert f == MapFile(MapFileName(m, modes[m].field), Listing(u));
    ListingNumbers(u, d, f.lines);
  }

  /** The listing of distinct keys has one line per key, at the key's index. */
  lemma ListingNumbers(u: seq<Key>, e: map<Key, int>, l: seq<string>)
    requires Distinct(u) && e == Enumerate(u) && l == Listing(u)
    ensures |l| == |e|
    ensures forall k :: k in e ==> l[e[k] - 1] == KeyText(k)
  {
    EnumerateNumbers(u);
    ListingOf(u, e, l);
  }

  /** Line `e[k] - 1` of the listing is the text of `k`, for an enumeration `e` of `u`. */
  lemma ListingOf(u: seq<Key>, e: map<Key, int>, l: seq<string>)
    requires l == Listing(u)
    requires forall k :: k in e <==> k in u
    requires forall i :: 0 <= i < |u| ==> e[u[i]] == i + 1
    ensures forall k :: k in e ==> l[e[k] - 1] == KeyText(k)
  {
    forall k | k in e
      ensures l[e[k] - 1] == KeyText(k)
    {
      var p := Position(u, k);
      assert e[u[p]] == p + 1;
    }
  }

  /**
   * As written, each map is built without the mode's type, so it gets the default
   * transform: it numbers no key, and every index of every row is `None`.
   */
  lemma UntypedMapIsEmpty(vs: seq<string>, sort: bool, raw: string)
    ensures DenseMap(Tallied(Empty, DefaultTransform, vs), sort) == map[]
    ensures Show(Lookup(DefaultTransform, DenseMap(Tallied(Empty, DefaultTransform, vs), sort), raw)) == "None"
  {
    DefaultSkipsEverything(vs);
  }

  // ---------------------------------------------------------------------------
  // The program

  /** The maps are pairwise different objects. */
  predicate Separate(maps: seq<IndexMap>)
  {
    forall i, j :: 0 <= i < j < |maps| ==> maps[i] != maps[j]
  }

  /** `im` is mode `mode`'s map, not yet built, after counting `vs`. */
  ghost predicate Tracks(im: IndexMap, mode: Mode, vs: seq<string>)
    reads im
  {
    && im.Valid() && im.transform == mode.transform && im.sort == mode.sort
    && im.mapping == map[] && im.Contents() == Tallied(Empty, mode.transform, vs)
  }

  /** `im` is mode `mode`'s map, built after counting `vs`. */
  ghost predicate Built(im: IndexMap, mode: Mode, vs: seq<string>)
    reads im
  {
    && im.Valid() && im.transform == mode.transform && im.sort == mode.sort && im.isMapped
    && im.Contents() == Tallied(Empty, mode.transform, vs) && im.mapping == DenseMap(im.Contents(), im.sort)
  }

  /**
   * `config.get_mode(m)` as written in the map-creation loop, with the position `m`
   * of a configured mode: the search raises `AttributeError` instead of returning mode `m`.
   */
  lemma PositionLookupFails(modes: seq<Mode>, m: int)
    requires 0 <= m < |modes|
    ensures ModeLookup(modes, PyInt(m)) == Failure(NoLowerOnInt(m))
    ensures ModeLookup(modes, PyInt(m)) != Success(modes[m])
  {
    ModeLookupByInt(modes, m);
  }

  /** One empty index map per mode, named after the mode's field. */
  method NewMaps(config: TensorConfig) returns (maps: seq<IndexMap>)
    ensures |maps| == |config.modes| && Separate(maps)
    ensures forall j :: 0 <= j < |maps| ==> fresh(maps[j]) && Tracks(maps[j], config.modes[j], [])
    ensures forall j :: 0 <= j < |maps| ==> maps[j].name == config.modes[j].field && !maps[j].isMapped
  {
    maps := [];
    for m := 0 to config.NumModes()
      invariant |maps| == m && Separate(maps)
      invariant forall j :: 0 <= j < m ==> fresh(maps[j]) && Tracks(maps[j], config.modes[j], [])
      invariant forall j :: 0 <= j < m ==> maps[j].name == config.modes[j].field && !maps[j].isMapped
    {
      var mode := config.GetModeByIdx(m).value;
      var im := new IndexMap(mode.field, mode.transform, mode.sort);
      maps := maps + [im];
    }
  }

  /** Adds a row's value for every mode; `false` as soon as a column is past the row's end. */
  method CountRow(maps: seq<IndexMap>, cols: seq<nat>, row: seq<string>, ghost before: seq<Tally>)
      returns (fits: bool)
    requires |maps| == |cols| == |before| && Separate(maps)
    requires forall j :: 0 <= j < |maps| ==> maps[j].Valid() && maps[j].Contents() == before[j]
    modifies maps
    ensures fits <==> Fits(row, cols)
    ensures forall j :: 0 <= j < |maps| ==>
      maps[j].Valid() && maps[j].mapping == old(maps[j].mapping) && maps[j].isMapped == old(maps[j].isMapped)
    ensures fits ==> forall j :: 0 <= j < |maps| ==>
      WellFormed(before[j]) && maps[j].Contents() == Step(before[j], maps[j].transform, row[cols[j]])
  {
    ghost var now := before;
    for m := 0 to |maps|
      invariant |now| == |maps|
      invariant forall j :: 0 <= j < |maps| ==>
        maps[j].Contents() == now[j] && maps[j].mapping == old(maps[j].mapping)
        && maps[j].isMapped == old(maps[j].isMapped)
      invariant forall j :: 0 <= j < |now| ==> WellFormed(now[j])
      invariant forall j :: 0 <= j < m ==> cols[j] < |row|
      invariant forall j :: 0 <= j < m ==>
        WellFormed(before[j]) && now[j] == Step(before[j], maps[j].transform, row[cols[j]])
      invariant forall j :: m <= j < |maps| ==> now[j] == before[j]
    {
      if cols[m] >= |row| {
        return false;
      }
      now := CountCell(maps, m, row[cols[m]], now);
    }
    return true;
  }

  /** `indmaps[m].add(key)`: only map `m` changes. */
  method CountCell(maps: seq<IndexMap>, m: nat, key: string, ghost now: seq<Tally>)
      returns (ghost next: seq<Tally>)
    requires m < |maps| == |now| && Separate(maps)
    requires forall j :: 0 <= j < |maps| ==> maps[j].Contents() == now[j] && WellFormed(now[j])
    modifies maps[m]
    ensures WellFormed(now[m]) && next == now[m := Step(now[m], maps[m].transform, key)]
    ensures forall j :: 0 <= j < |maps| ==>
      maps[j].Contents() == next[j] && WellFormed(next[j]) && maps[j].mapping == old(maps[j].mapping)
      && maps[j].isMapped == old(maps[j].isMapped)
  {
    var _ := maps[m].Add(key);
    next := now[m := maps[m].Contents()];
  }

  /** Counting one more record adds its value to each mode's counter. */
  lemma TallyOfSnoc(recs: seq<seq<string>>, p: seq<string>, modes: seq<Mode>, j: nat)
    requires Rectangular(recs, |modes|) && |p| == |modes| && j < |modes|
    ensures Rectangular(recs + [p], |modes|)
    ensures TallyOf(recs + [p], modes, j) == Step(TallyOf(recs, modes, j), modes[j].transform, p[j])
  {
    var vs := Column(recs + [p], j);
    assert vs[..|vs| - 1] == Column(recs, j);
  }

  /** `header.index(field)` for every mode, in mode order. */
  method ResolveColumns(name: string, header: seq<string>, modes: seq<Mode>) returns (r: Result<seq<nat>, BuildError>)
    ensures r == Columns(name, header, modes)
  {
    var cols: seq<nat> := [];
    for m := 0 to |modes|
      invariant |cols| == m
      invariant forall j :: 0 <= j < m ==> FirstIndex(header, modes[j].field) == Some(cols[j])
    {
      var c := FirstIndex(header, modes[m].field);
      if c.None? {
        assert FirstMissing(header, modes) == Some(m);
        return Failure(MissingField(name, modes[m].field));
      }
      cols := cols + [c.value];
    }
    forall j | 0 <= j < |modes|
      ensures modes[j].field in header
    {
      assert FirstIndex(header, modes[j].field).Some?;
    }
    assert cols == seq(|modes|, j requires 0 <= j < |modes| => FirstIndex(header, modes[j].field).value);
    return Success(cols);
  }

  /** Counting one more record keeps every map in step with its mode's column. */
  lemma TracksSnoc(maps: seq<IndexMap>, modes: seq<Mode>, recs: seq<seq<string>>, p: seq<string>, j: nat)
    requires |maps| == |modes| && Rectangular(recs, |modes|) && |p| == |modes| && j < |modes|
    requires maps[j].Valid() && maps[j].transform == modes[j].transform && maps[j].sort == modes[j].sort
    requires maps[j].mapping == map[]
    requires maps[j].Contents() == Step(TallyOf(recs, modes, j), modes[j].transform, p[j])
    ensures Rectangular(recs + [p], |modes|)
    ensures Tracks(maps[j], modes[j], Column(recs + [p], j))
  {
    TallyOfSnoc(recs, p, modes, j);
  }

  /** One row of the counting pass, stated over the records counted so far. */
  method CountRecord(maps: seq<IndexMap>, modes: seq<Mode>, cols: seq<nat>, row: seq<string>,
                     ghost acc: seq<seq<string>>) returns (fits: bool)
    requires |maps| == |modes| == |cols| && Separate(maps) && Rectangular(acc, |modes|)
    requires forall j :: 0 <= j < |maps| ==> Tracks(maps[j], modes[j], Column(acc, j))
    modifies maps
    ensures fits <==> Fits(row, cols)
    ensures fits ==> Rectangular(acc + [Project(row, cols)], |modes|)
    ensures fits ==> forall j :: 0 <= j < |maps| ==>
      Tracks(maps[j], modes[j], Column(acc + [Project(row, cols)], j))
  {
    ghost var before := seq(|maps|, j requires 0 <= j < |maps| => TallyOf(acc, modes, j));
    fits := CountRow(maps, cols, row, before);
    if fits {
      ghost var p := Project(row, cols);
      forall j | 0 <= j < |maps|
        ensures Tracks(maps[j], modes[j], Column(acc + [p], j))
      {
        TracksSnoc(maps, modes, acc, p, j);
      }
    }
  }

  /** `Records` extends by one projected row per extra row. */
  lemma RecordsSnoc(rows: seq<seq<string>>, cols: seq<nat>, i: nat)
    requires i < |rows| && forall i' :: 0 <= i' <= i ==> Fits(rows[i'], cols)
    ensures Records(rows[..i + 1], cols) == Records(rows[..i], cols) + [Project(rows[i], cols)]
  {
  }

  /** The rows loop of the counting pass. */
  method CountRows(maps: seq<IndexMap>, modes: seq<Mode>, name: string, rows: seq<seq<string>>,
                   cols: seq<nat>, ghost recs: seq<seq<string>>) returns (r: Outcome<BuildError>)
    requires |maps| == |modes| == |cols| && Separate(maps) && Rectangular(recs, |modes|)
    requires forall j :: 0 <= j < |maps| ==> Tracks(maps[j], modes[j], Column(recs, j))
    modifies maps
    ensures match FirstShortRow(rows, cols)
      case Some(i) => r == Fail(ShortRow(name, i))
      case None =>
        && r == Pass && Rectangular(recs + Records(rows, cols), |modes|)
        && forall j :: 0 <= j < |maps| ==> Tracks(maps[j], modes[j], Column(recs + Records(rows, cols), j))
  {
    ghost var acc := recs;
    for i := 0 to |rows|
      invariant forall i' :: 0 <= i' < i ==> Fits(rows[i'], cols)
      invariant acc == recs + Records(rows[..i], cols)
      invariant Rectangular(acc, |modes|)
      invariant forall j :: 0 <= j < |maps| ==> Tracks(maps[j], modes[j], Column(acc, j))
    {
      var fits := CountRecord(maps, modes, cols, rows[i], acc);
      if !fits {
        assert FirstShortRow(rows, cols) == Some(i);
        return Fail(ShortRow(name, i));
      }
      RecordsSnoc(rows, cols, i);
      acc := acc + [Project(rows[i], cols)];
    }
    assert rows[..|rows|] == rows;
    return Pass;
  }

  /** The counting pass over one file. */
  method CountFile(maps: seq<IndexMap>, modes: seq<Mode>, name: string, inp: Input,
                   ghost recs: seq<seq<string>>) returns (r: Outcome<BuildError>)
    requires |maps| == |modes| && Separate(maps) && Rectangular(recs, |modes|)
    requires forall j :: 0 <= j < |maps| ==> Tracks(maps[j], modes[j], Column(recs, j))
    modifies maps
    ensures match ScanFile(name, inp, modes)
      case Failure(e) => r == Fail(e)
      case Success(more) =>
        && r == Pass && Rectangular(recs + more, |modes|)
        && forall j :: 0 <= j < |maps| ==> Tracks(maps[j], modes[j], Column(recs + more, j))
  {
    var cols := ResolveColumns(name, inp.header, modes);
    if cols.Failure? {
      return Fail(cols.error);
    }
    r := CountRows(maps, modes, name, inp.rows, cols.value, recs);
  }

  /** `cols[m] = header.index(field)` for every mode, into a fresh array. */
  method FillColumns(header: seq<string>, modes: seq<Mode>) returns (cols: array<nat>)
    requires forall j :: 0 <= j < |modes| ==> modes[j].field in header
    ensures fresh(cols) && cols.Length == |modes|
    ensures cols[..] == seq(|modes|, j requires 0 <= j < |modes| => FirstIndex(header, modes[j].field).value)
  {
    cols := new nat[|modes|](_ => 0);
    for m := 0 to |modes|
      invariant forall j :: 0 <= j < m ==> cols[j] == FirstIndex(header, modes[j].field).value
    {
      cols[m] := FirstIndex(header, modes[m].field).value;
    }
  }

  /** `inds[m] = str(indmaps[m][row[cols[m]]])` for every mode. */
  method FillIndices(maps: seq<IndexMap>, modes: seq<Mode>, cols: array<nat>, inds: array<string>,
                     row: seq<string>, ghost dense: seq<map<Key, int>>)
    requires |maps| == |modes| == |dense| == cols.Length == inds.Length
    requires forall j :: 0 <= j < |maps| ==>
      maps[j].isMapped && maps[j].mapping == dense[j] && maps[j].transform == modes[j].transform
    requires Fits(row, cols[..])
    modifies inds
    ensures inds[..] == Tokens(Project(row, cols[..]), modes, dense)
  {
    for m := 0 to inds.Length
      invariant forall j :: 0 <= j < m ==>
        inds[j] == Show(Lookup(modes[j].transform, dense[j], row[cols[j]]))
    {
      assert cols[..][m] == cols[m];
      var item := maps[m].GetItem(row[cols[m]]);
      inds[m] := Show(item.value);
    }
  }

  /** A row too short for column `c`, after rows long enough for it, is the first short row. */
  lemma FirstShortAt(rows: seq<seq<string>>, c: nat, i: nat)
    requires i < |rows| && c >= |rows[i]|
    requires forall i' :: 0 <= i' < i ==> c < |rows[i']|
    ensures FirstShortRow(rows, [c]) == Some(i)
  {
    FitsOne(rows[i], c);
    FitsColumn(rows[..i], c);
    assert forall i' :: 0 <= i' < i ==> rows[..i][i'] == rows[i'];
  }

  /** One output line of the emission pass: the row's indices, then the value. */
  method EmitLine(maps: seq<IndexMap>, modes: seq<Mode>, cols: array<nat>, inds: array<string>,
                  row: seq<string>, val: string, ghost dense: seq<map<Key, int>>) returns (line: string)
    requires |maps| == |modes| == |dense| == cols.Length == inds.Length
    requires forall j :: 0 <= j < |maps| ==>
      maps[j].isMapped && maps[j].mapping == dense[j] && maps[j].transform == modes[j].transform
    requires Fits(row, cols[..])
    modifies inds
    ensures line == Line(Project(row, cols[..]), val, modes, dense)
  {
    FillIndices(maps, modes, cols, inds, row, dense);
    line := Join(" ", inds[..]) + " " + val;
  }

  /** The rows loop of the emission pass; `valCol` is -1 when no values field is set. */
  method EmitRows(maps: seq<IndexMap>, modes: seq<Mode>, name: string, rows: seq<seq<string>>,
                  cols: array<nat>, valCol: int, ghost dense: seq<map<Key, int>>)
      returns (r: Result<seq<string>, BuildError>)
    requires |maps| == |modes| == |dense| == cols.Length && valCol >= -1
    requires forall j :: 0 <= j < |maps| ==>
      maps[j].isMapped && maps[j].mapping == dense[j] && maps[j].transform == modes[j].transform
    requires forall i :: 0 <= i < |rows| ==> Fits(rows[i], cols[..])
    ensures match (if valCol == -1 then Success(Ones(|rows|)) else ValueColumn(name, rows, valCol))
      case Failure(e) => r == Failure(e)
      case Success(vs) => r == Success(Render(Records(rows, cols[..]), vs, modes, dense))
  {
    ghost var recs := Records(rows, cols[..]);
    var inds := new string[|modes|](_ => "0");
    ghost var values: seq<string> := [];
    var val := "1";
    var out: seq<string> := [];
    for i := 0 to |rows|
      invariant |out| == i && |values| == i
      invariant valCol == -1 ==> val == "1" && values == Ones(i)
      invariant valCol != -1 ==> forall i' :: 0 <= i' < i ==> valCol < |rows[i']|
      invariant valCol != -1 ==> values == Picked(rows[..i], valCol)
      invariant forall i' :: 0 <= i' < i ==> out[i'] == Line(recs[i'], values[i'], modes, dense)
    {
      var row := rows[i];
      if valCol != -1 {
        if valCol >= |row| {
          FirstShortAt(rows, valCol, i);
          return Failure(ShortRow(name, i));
        }
        val := row[valCol];
        PickedSnoc(rows, valCol, i);
      }
      var line := EmitLine(maps, modes, cols, inds, row, val, dense);
      assert recs[i] == Project(row, cols[..]);
      out := out + [line];
      values := values + [val];
    }
    if valCol != -1 {
      assert rows[..|rows|] == rows;
      FitsColumn(rows, valCol);
    }
    assert out == Render(recs, values, modes, dense);
    return Success(out);
  }

  /** The emission pass over one file, after every map is built. */
  method EmitFile(maps: seq<IndexMap>, modes: seq<Mode>, name: string, inp: Input,
                  vals: Option<string>, ghost dense: seq<map<Key, int>>) returns (r: Result<seq<string>, BuildError>)
    requires |maps| == |modes| == |dense|
    requires forall j :: 0 <= j < |maps| ==>
      maps[j].isMapped && maps[j].mapping == dense[j] && maps[j].transform == modes[j].transform
    requires ScanFile(name, inp, modes).Success?
    ensures match ValueFile(name, inp, vals)
      case Failure(e) => r == Failure(e)
      case Success(vs) => r == Success(Render(ScanFile(name, inp, modes).value, vs, modes, dense))
  {
    ghost var spec := Columns(name, inp.header, modes).value;
    var cols := FillColumns(inp.header, modes);
    assert cols[..] == spec;
    var valCol: int := -1;
    if ValsActive(vals) {
      var c := FirstIndex(inp.header, vals.value);
      if c.None? {
        return Failure(MissingValsField(name, vals.value));
      }
      valCol := c.value;
    }
    r := EmitRows(maps, modes, name, inp.rows, cols, valCol, dense);
  }

  /** The counting pass over every input file, in order. */
  method CountAll(maps: seq<IndexMap>, modes: seq<Mode>, names: seq<string>, fs: string -> Input)
      returns (r: Outcome<BuildError>)
    requires |maps| == |modes| && Separate(maps)
    requires forall j :: 0 <= j < |maps| ==> Tracks(maps[j], modes[j], [])
    modifies maps
    ensures match Gather(names, ScanStep(fs, modes))
      case Failure(e) => r == Fail(e)
      case Success(recs) =>
        && r == Pass && Rectangular(recs, |modes|)
        && forall j :: 0 <= j < |maps| ==> Tracks(maps[j], modes[j], Column(recs, j))
  {
    ghost var scan := ScanStep(fs, modes);
    ghost var recs: seq<seq<string>> := [];
    forall j | 0 <= j < |maps|
      ensures Tracks(maps[j], modes[j], Column(recs, j))
    {
      assert Column(recs, j) == [];
    }
    for f := 0 to |names|
      invariant Gather(names[..f], scan) == Success(recs) && Rectangular(recs, |modes|)
      invariant forall j :: 0 <= j < |maps| ==> Tracks(maps[j], modes[j], Column(recs, j))
    {
      var outcome := CountFile(maps, modes, names[f], fs(names[f]), recs);
      GatherSnoc(names, scan, f);
      if outcome.Fail? {
        GatherPersists(names, scan, f + 1);
        return outcome;
      }
      recs := recs + ScanFile(names[f], fs(names[f]), modes).value;
    }
    assert names[..|names|] == names;
    return Pass;
  }

  /** `build_map` for every mode. */
  method BuildAll(maps: seq<IndexMap>, modes: seq<Mode>, ghost recs: seq<seq<string>>)
    requires |maps| == |modes| && Separate(maps) && Rectangular(recs, |modes|)
    requires forall j :: 0 <= j < |maps| ==> Tracks(maps[j], modes[j], Column(recs, j))
    modifies maps
    ensures forall j :: 0 <= j < |maps| ==> Built(maps[j], modes[j], Column(recs, j))
  {
    for m := 0 to |maps|
      invariant forall j :: 0 <= j < m ==> Built(maps[j], modes[j], Column(recs, j))
      invariant forall j :: m <= j < |maps| ==> Tracks(maps[j], modes[j], Column(recs, j))
    {
      BuildOne(maps[m], modes[m], Column(recs, m));
    }
  }

  /** `build_map` on one counted map. */
  method BuildOne(im: IndexMap, mode: Mode, ghost vs: seq<string>)
    requires Tracks(im, mode, vs)
    modifies im
    ensures Built(im, mode, vs)
  {
    im.BuildMap();
    assert map[] + DenseMap(im.Contents(), im.sort) == DenseMap(im.Contents(), im.sort);
  }

  /** Emitting two runs of records one after the other. */
  lemma RenderAppend(a: seq<seq<string>>, va: seq<string>, b: seq<seq<string>>, vb: seq<string>,
                     modes: seq<Mode>, dense: seq<map<Key, int>>)
    requires |va| == |a| && |vb| == |b| && Rectangular(a, |modes|) && Rectangular(b, |modes|)
    requires |dense| == |modes|
    ensures Rectangular(a + b, |modes|)
    ensures Render(a + b, va + vb, modes, dense) == Render(a, va, modes, dense) + Render(b, vb, modes, dense)
  {
  }

  /** The emission pass over every input file, in order. */
  method EmitAll(maps: seq<IndexMap>, modes: seq<Mode>, names: seq<string>, fs: string -> Input,
                 vals: Option<string>, ghost recs: seq<seq<string>>) returns (r: Result<seq<string>, BuildError>)
    requires |maps| == |modes| && Rectangular(recs, |modes|)
    requires Gather(names, ScanStep(fs, modes)) == Success(recs)
    requires forall j :: 0 <= j < |maps| ==> Built(maps[j], modes[j], Column(recs, j))
    ensures match Gather(names, ValueStep(fs, vals))
      case Failure(e) => r == Failure(e)
      case Success(vs) => |vs| == |recs| && r == Success(Render(recs, vs, modes, Numbering(recs, modes)))
  {
    ghost var scan := ScanStep(fs, modes);
    ghost var values := ValueStep(fs, vals);
    ghost var dense := Numbering(recs, modes);
    BuiltNumbering(maps, modes, recs, dense);
    ghost var done: seq<seq<string>> := [];
    ghost var vs: seq<string> := [];
    var lines: seq<string> := [];
    for f := 0 to |names|
      invariant Gather(names[..f], scan) == Success(done) && Rectangular(done, |modes|)
      invariant Gather(names[..f], values) == Success(vs) && |vs| == |done|
      invariant lines == Render(done, vs, modes, dense)
    {
      GatherPrefix(names, scan, f);
      var emitted := EmitFile(maps, modes, names[f], fs(names[f]), vals, dense);
      if emitted.Failure? {
        GatherSnoc(names, values, f);
        GatherPersists(names, values, f + 1);
        return emitted;
      }
      ghost var more := ScanFile(names[f], fs(names[f]), modes).value;
      ghost var vmore := ValueFile(names[f], fs(names[f]), vals).value;
      EmitStep(names, fs, modes, vals, dense, f, done, vs);
      lines := lines + emitted.value;
      done := done + more;
      vs := vs + vmore;
    }
    assert names[..|names|] == names;
    return Success(lines);
  }

  /** One more file of the emission pass extends both passes and the rendered lines by that file's. */
  lemma EmitStep(names: seq<string>, fs: string -> Input, modes: seq<Mode>, vals: Option<string>,
                 dense: seq<map<Key, int>>, f: nat, done: seq<seq<string>>, vs: seq<string>)
    requires f < |names| && |dense| == |modes|
    requires Gather(names[..f], ScanStep(fs, modes)) == Success(done) && Rectangular(done, |modes|)
    requires Gather(names[..f], ValueStep(fs, vals)) == Success(vs) && |vs| == |done|
    requires ScanFile(names[f], fs(names[f]), modes).Success?
    requires ValueFile(names[f], fs(names[f]), vals).Success?
    ensures var more := ScanFile(names[f], fs(names[f]), modes).value;
      var vmore := ValueFile(names[f], fs(names[f]), vals).value;
      && Gather(names[..f + 1], ScanStep(fs, modes)) == Success(done + more)
      && Gather(names[..f + 1], ValueStep(fs, vals)) == Success(vs + vmore)
      && Rectangular(done + more, |modes|) && |vs + vmore| == |done + more|
      && Render(done + more, vs + vmore, modes, dense)
         == Render(done, vs, modes, dense) + Render(more, vmore, modes, dense)
  {
    var more := ScanFile(names[f], fs(names[f]), modes).value;
    var vmore := ValueFile(names[f], fs(names[f]), vals).value;
    GatherSnoc(names, ScanStep(fs, modes), f);
    GatherSnoc(names, ValueStep(fs, vals), f);
    RenderAppend(done, vs, more, vmore, modes, dense);
  }

  /** Built maps hold the numbering of their mode's column. */
  lemma BuiltNumbering(maps: seq<IndexMap>, modes: seq<Mode>, recs: seq<seq<string>>, dense: seq<map<Key, int>>)
    requires |maps| == |modes| && Rectangular(recs, |modes|) && dense == Numbering(recs, modes)
    requires forall j :: 0 <= j < |maps| ==> Built(maps[j], modes[j], Column(recs, j))
    ensures |dense| == |maps|
    ensures forall j :: 0 <= j < |maps| ==>
      maps[j].isMapped && maps[j].mapping == dense[j] && maps[j].transform == modes[j].transform
  {
  }

  /** `write_file` of one built map, under the name of mode `m`. */
  method WriteMap(im: IndexMap, m: nat, mode: Mode, ghost vs: seq<string>) returns (f: MapFile)
    requires Built(im, mode, vs)
    ensures var t := Tallied(Empty, mode.transform, vs);
      f == MapFile(MapFileName(m, mode.field), Listing(Ordered(Survivors(t.order, t.counts), mode.sort)))
  {
    ghost var t := im.Contents();
    ghost var u := Ordered(Survivors(t.order, t.counts), im.sort);
    DenseMapDomain(t, im.sort);
    assert im.mapping == Enumerate(u);
    var lines := im.WriteFile();
    assert |lines| == |u|;
    ListingInverse(u, im.mapping, lines);
    f := MapFile(MapFileName(m, mode.field), lines);
  }

  /** `write_file` for every mode, under `mode-{m+1}-{field}.map`. */
  method WriteAll(maps: seq<IndexMap>, config: TensorConfig, ghost recs: seq<seq<string>>)
      returns (files: seq<MapFile>)
    requires |maps| == |config.modes| && Rectangular(recs, |config.modes|)
    requires forall j :: 0 <= j < |maps| ==> Built(maps[j], config.modes[j], Column(recs, j))
    ensures files == MapFiles(recs, config.modes)
  {
    files := [];
    for m := 0 to config.NumModes()
      invariant files == MapFiles(recs, config.modes)[..m]
    {
      var mode := config.GetModeByIdx(m).value;
      var file := WriteMap(maps[m], m, mode, Column(recs, m));
      assert file == MapFiles(recs, config.modes)[m];
      files := files + [file];
    }
  }

  /** `build_tensor(config)`, with `fs` standing for the files the CSV reader opens. */
  method BuildTensor(config: TensorConfig, fs: string -> Input) returns (r: Result<Tensor, BuildError>)
    ensures r == Build(config.inputs, config.output, config.modes, config.vals, fs)
  {
    var maps := NewMaps(config);
    var inputs := config.GetInputs();
    if inputs.None? {
      return Failure(NoInputs);
    }

    // Counting pass: every row's value goes into each mode's map.
    var counted := CountAll(maps, config.modes, inputs.value, fs);
    if counted.Fail? {
      return Failure(counted.error);
    }
    ghost var recs := Gather(inputs.value, ScanStep(fs, config.modes)).value;
    BuildAll(maps, config.modes, recs);

    // Values pass: one line of indices and a value per row.
    var output := config.GetOutput();
    if output.None? {
      return Failure(NoOutputName);
    }
    var lines := EmitAll(maps, config.modes, inputs.value, fs, config.GetVals(), recs);
    if lines.Failure? {
      return Failure(lines.error);
    }

    // One key listing per mode.
    var files := WriteAll(maps, config, recs);
    return Success(Tensor(output.value, lines.value, files));
  }
}

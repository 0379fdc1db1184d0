/** The files that pass between the scripts: the logger's CSV is the input of the
    transform script, and the transform script's CSV is read back by the checker
    (with `csv.reader`, every line) and by the fuser (with `np.genfromtxt`, after
    the header). */
module Handoffs {
  import opened Wrappers
  import opened Matrices
  import opened CsvFields
  import RsiLogger
  import PoseTransforms
  import CheckTransforms
  import FramesToCloud

  // ---------------------------------------------------------------- logger to transform script

  /** The logger writes every column the transform script requires, as its first seven. */
  lemma LoggerWritesRequiredColumns()
    ensures PoseTransforms.RequiredColumns == RsiLogger.Fieldnames[..7]
    ensures PoseTransforms.HasRequiredColumns(RsiLogger.Fieldnames)
  {
  }

  // ---------------------------------------------------------------- transform script to checker

  /** `read_csv` does not skip the header "0,1,...,16": it reads it as a transform at
      time 0 whose entries are 1..16 in row-major order. */
  lemma CheckerReadsHeaderAsTransform()
    ensures CheckTransforms.ParseLine(PoseTransforms.OutputHeader())
      == Ok((0, Reshape(seq(16, k => (k + 1) as real))))
  {
    var h := PoseTransforms.OutputHeader();
    var values := seq(16, k => (k + 1) as real);
    var rest := h[1..];
    assert forall k | 0 <= k < 16 :: ToReal(rest[k]) == Some(values[k]);
    var r := CheckTransforms.ParseLine(h);
    assert r.Ok?;
    var numbers := CheckTransforms.ReadNumbers(rest).value;
    assert numbers == values;
    ReshapeFlatten(r.value.1);
  }

  /** A data line reads back as the entry's timestamp and its 16 values reshaped. */
  lemma CheckerReadsLine(row: PoseTransforms.TransformRow)
    requires |row.entries| == 16
    ensures CheckTransforms.ParseLine(PoseTransforms.OutputLine(row)) == Ok((row.timestamp, Reshape(row.entries)))
  {
    var line := PoseTransforms.OutputLine(row);
    var rest := line[1..];
    assert forall k | 0 <= k < 16 :: ToReal(rest[k]) == Some(row.entries[k]);
    var r := CheckTransforms.ParseLine(line);
    assert r.Ok?;
    var numbers := CheckTransforms.ReadNumbers(rest).value;
    assert numbers == row.entries;
    ReshapeFlatten(r.value.1);
  }

  /** Every line of a file `process_csv` wrote parses, so `read_csv` returns: first the
      header's transform at time 0, then each emitted entry in order, each of them rigid. */
  lemma CheckerReadsProcessOutput(log: PoseTransforms.PoseLog, dates: PoseTransforms.DateParsers)
    requires PoseTransforms.Process(log, dates).Ok?
    ensures var out := PoseTransforms.Process(log, dates).value;
      var file := PoseTransforms.OutputTable(out);
      && (forall i | 0 <= i < |file| :: CheckTransforms.ParseLine(file[i]).Ok?)
      && CheckTransforms.ParseLine(file[0]).value.0 == 0
      && forall j | 0 <= j < |out| ::
           && CheckTransforms.ParseLine(file[j + 1]) == Ok((out[j].timestamp, Reshape(out[j].entries)))
           && IsRigid(Reshape(out[j].entries))
  {
    var out := PoseTransforms.Process(log, dates).value;
    var file := PoseTransforms.OutputTable(out);
    PoseTransforms.EntriesAreRigid(log, dates);
    CheckerReadsHeaderAsTransform();
    forall j | 0 <= j < |out|
      ensures CheckTransforms.ParseLine(file[j + 1]) == Ok((out[j].timestamp, Reshape(out[j].entries)))
    {
      CheckerReadsLine(out[j]);
    }
    forall i | 0 <= i < |file| ensures CheckTransforms.ParseLine(file[i]).Ok? {
      if i > 0 {
        assert file[(i - 1) + 1] == file[i];
      }
    }
  }

  // ---------------------------------------------------------------- transform script to fuser

  /** `np.genfromtxt(path, delimiter=',', skip_header=1)` on a file of numbers: each
      line after the first, each field as a float. */
  function Genfromtxt(lines: seq<seq<Field>>): (rows: seq<seq<real>>)
    requires |lines| > 0
    requires forall i, k | 1 <= i < |lines| && 0 <= k < |lines[i]| :: ToReal(lines[i][k]).Some?
    ensures |rows| == |lines| - 1
    ensures forall i | 0 <= i < |rows| ::
      |rows[i]| == |lines[i + 1]| && forall k | 0 <= k < |rows[i]| :: Some(rows[i][k]) == ToReal(lines[i + 1][k])
  {
    seq(|lines| - 1, i requires 0 <= i < |lines| - 1 =>
      seq(|lines[i + 1]|, k requires 0 <= k < |lines[i + 1]| => ToReal(lines[i + 1][k]).value))
  }

  /** Every field of a written data line is a number. */
  lemma DataLinesAreNumbers(out: seq<PoseTransforms.TransformRow>)
    ensures var file := PoseTransforms.OutputTable(out);
      forall i, k | 1 <= i < |file| && 0 <= k < |file[i]| :: ToReal(file[i][k]).Some?
  {
    var file := PoseTransforms.OutputTable(out);
    forall i, k | 1 <= i < |file| && 0 <= k < |file[i]| ensures ToReal(file[i][k]).Some? {
      var line := PoseTransforms.OutputLine(out[i - 1]);
      assert file[i] == line;
      if k > 0 {
        assert line[(k - 1) + 1] == line[k];
      }
    }
  }

  /** Each field of a written data line reads as the timestamp followed by the values. */
  lemma LineReadsAsRow(row: PoseTransforms.TransformRow)
    ensures var line, values := PoseTransforms.OutputLine(row), [row.timestamp as real] + row.entries;
      |line| == |values| && forall k | 0 <= k < |line| :: ToReal(line[k]) == Some(values[k])
  {
    var line := PoseTransforms.OutputLine(row);
    forall k | 1 <= k < |line| ensures ToReal(line[k]) == Some(row.entries[k - 1]) {
      assert line[(k - 1) + 1] == line[k];
    }
  }

  /** The rows the fuser loads from a written file: one per entry, the timestamp and
      then the 16 values. */
  function Loaded(out: seq<PoseTransforms.TransformRow>): (rows: seq<seq<real>>)
    ensures |rows| == |out|
    ensures forall j | 0 <= j < |out| :: rows[j] == [out[j].timestamp as real] + out[j].entries
  {
    DataLinesAreNumbers(out);
    var file := PoseTransforms.OutputTable(out);
    var rows := Genfromtxt(file);
    forall j | 0 <= j < |out| ensures rows[j] == [out[j].timestamp as real] + out[j].entries {
      LoadedRowIsLine(file, rows, out[j], j + 1);
    }
    rows
  }

  /** One loaded row is the values of the line it came from. */
  lemma LoadedRowIsLine(file: seq<seq<Field>>, rows: seq<seq<real>>, row: PoseTransforms.TransformRow, i: nat)
    requires 1 <= i < |file| && |rows| == |file| - 1 && file[i] == PoseTransforms.OutputLine(row)
    requires |rows[i - 1]| == |file[i]| && forall k | 0 <= k < |rows[i - 1]| :: Some(rows[i - 1][k]) == ToReal(file[i][k])
    ensures rows[i - 1] == [row.timestamp as real] + row.entries
  {
    LineReadsAsRow(row);
  }

  /** `int(row[0])` of a loaded row is the entry's timestamp again. */
  lemma KeyIsTimestamp(out: seq<PoseTransforms.TransformRow>, j: nat)
    requires j < |out|
    ensures |Loaded(out)[j]| > 0 && FramesToCloud.KeyOf(Loaded(out)[j]) == out[j].timestamp
  {
    var t := out[j].timestamp;
    var n := FramesToCloud.KeyOf(Loaded(out)[j]);
    assert Loaded(out)[j][0] == t as real;
    if t >= 0 {
      assert n as real <= t as real < n as real + 1.0;
    } else {
      assert n as real - 1.0 < t as real <= n as real;
    }
  }

  /** The fuser loads a written file of several entries into a table whose keys are the
      entries' timestamps; an entry whose timestamp does not repeat later is found with
      its own matrix. */
  lemma FuserFindsEntry(out: seq<PoseTransforms.TransformRow>, j: nat)
    requires forall i | 0 <= i < |out| :: |out[i].entries| == 16
    requires |out| != 1 && j < |out|
    requires forall i | j < i < |out| :: out[i].timestamp != out[j].timestamp
    ensures var loaded := FramesToCloud.TableOf(Loaded(out));
      && loaded.Ok?
      && (forall k :: k in loaded.value.keys <==> exists i | 0 <= i < |out| :: out[i].timestamp == k)
      && FramesToCloud.FindClosest(out[j].timestamp, loaded.value) == Ok(Reshape(out[j].entries))
  {
    var rows := Loaded(out);
    assert FramesToCloud.WellShaped(rows);
    LoadedKeys(out);
    EntryKept(out, j);
    FramesToCloud.ExactKeyFound(out[j].timestamp, FramesToCloud.Insert(rows));
  }

  /** The keys of the fuser's table are the entries' timestamps. */
  lemma LoadedKeys(out: seq<PoseTransforms.TransformRow>)
    requires forall i | 0 <= i < |out| :: |out[i].entries| == 16
    ensures FramesToCloud.WellShaped(Loaded(out))
    ensures forall k :: k in FramesToCloud.Insert(Loaded(out)).keys <==> exists i | 0 <= i < |out| :: out[i].timestamp == k
  {
    var rows := Loaded(out);
    assert FramesToCloud.WellShaped(rows);
    forall i | 0 <= i < |out| ensures FramesToCloud.KeyOf(rows[i]) == out[i].timestamp {
      KeyIsTimestamp(out, i);
    }
    forall k ensures k in FramesToCloud.Insert(rows).keys <==> exists i | 0 <= i < |out| :: out[i].timestamp == k {
      FramesToCloud.InsertKeys(rows, k);
      SameKeys(rows, out, k);
    }
  }

  /** Rows keyed by the entries' timestamps have the timestamps as their keys. */
  lemma SameKeys(rows: seq<seq<real>>, out: seq<PoseTransforms.TransformRow>, k: int)
    requires |rows| == |out| && forall i | 0 <= i < |rows| :: |rows[i]| > 0
    requires forall i | 0 <= i < |out| :: FramesToCloud.KeyOf(rows[i]) == out[i].timestamp
    ensures (exists i | 0 <= i < |rows| :: FramesToCloud.KeyOf(rows[i]) == k) <==>
            (exists i | 0 <= i < |out| :: out[i].timestamp == k)
  {
    if i :| 0 <= i < |out| && out[i].timestamp == k {
      assert FramesToCloud.KeyOf(rows[i]) == k;
    }
  }

  /** An entry whose timestamp does not repeat later keeps its own matrix in the table. */
  lemma EntryKept(out: seq<PoseTransforms.TransformRow>, j: nat)
    requires forall i | 0 <= i < |out| :: |out[i].entries| == 16
    requires j < |out|
    requires forall i | j < i < |out| :: out[i].timestamp != out[j].timestamp
    ensures FramesToCloud.WellShaped(Loaded(out))
    ensures var table := FramesToCloud.Insert(Loaded(out));
      out[j].timestamp in table.entries && table.entries[out[j].timestamp] == Reshape(out[j].entries)
  {
    var rows := Loaded(out);
    assert FramesToCloud.WellShaped(rows);
    forall i | j < i < |out| ensures FramesToCloud.KeyOf(rows[i]) != FramesToCloud.KeyOf(rows[j]) {
      KeyIsTimestamp(out, i);
      KeyIsTimestamp(out, j);
    }
    FramesToCloud.LastRowWins(rows, j);
    KeyIsTimestamp(out, j);
    assert rows[j][1..] == out[j].entries;
  }

  /** A pose log of one row gives a transform file of one data line, which
      `np.genfromtxt` returns as a flat array, so the fuser cannot load it. */
  lemma SingleRowLogNotLoadable(log: PoseTransforms.PoseLog, dates: PoseTransforms.DateParsers)
    requires PoseTransforms.Process(log, dates).Ok? && |log.rows| == 1
    ensures FramesToCloud.TableOf(Loaded(PoseTransforms.Process(log, dates).value)) == Err(FramesToCloud.SingleDataRow)
  {
    var out := PoseTransforms.Process(log, dates).value;
    PoseTransforms.FirstEntryIsIdentity(log, dates);
    PoseTransforms.EmitRowsEntries(PoseTransforms.PoseOf(log.rows[0]).value, log.rows, dates);
  }
}

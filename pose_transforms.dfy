/** The pose-log processor: each logged robot pose (position X, Y, Z and angles
    A, B, C about x, y and z) becomes a 4x4 transform, and every transform is
    re-expressed relative to the pose of the first row. */
module PoseTransforms {
  import opened Wrappers
  import opened Matrices
  import Decimal
  import CsvFields

  // ---------------------------------------------------------------- euler_to_matrix

  /** The cosine and sine of one rotation angle; the conversion from degrees and the
      trigonometry itself are not modelled, so an angle is given by these two. */
  datatype Angle = Angle(cos: real, sin: real)

  type UnitAngle = a: Angle | a.cos * a.cos + a.sin * a.sin == 1.0 witness Angle(1.0, 0.0)

  const ZeroAngle: UnitAngle := Angle(1.0, 0.0)

  /** A position cell: a finite number, or a value on which the matrix assignment
      raises (text that is not a number). */
  datatype Coordinate = Coordinate(value: real) | BadCoordinate

  /** An angle cell: a finite angle, or a value on which `math.radians`, `cos` or `sin`
      raises (text, or an infinite angle). */
  datatype AngleCell = Turn(angle: UnitAngle) | BadAngle

  /** Rotation by a about the x axis. */
  function Rx(a: Angle): Mat3 {
    Mat3(1.0, 0.0, 0.0,
         0.0, a.cos, -a.sin,
         0.0, a.sin, a.cos)
  }

  /** Rotation by b about the y axis. */
  function Ry(b: Angle): Mat3 {
    Mat3(b.cos, 0.0, b.sin,
         0.0, 1.0, 0.0,
         -b.sin, 0.0, b.cos)
  }

  /** Rotation by c about the z axis. */
  function Rz(c: Angle): Mat3 {
    Mat3(c.cos, -c.sin, 0.0,
         c.sin, c.cos, 0.0,
         0.0, 0.0, 1.0)
  }

  /** `R = Rz @ Ry @ Rx`, which NumPy groups as (Rz @ Ry) @ Rx. */
  function Rotation(a: Angle, b: Angle, c: Angle): Mat3 {
    Mul3(Mul3(Rz(c), Ry(b)), Rx(a))
  }

  lemma RxOrthonormal(t: UnitAngle)
    ensures Orthonormal(Rx(t))
  {
    var c, s := t.cos, t.sin;
    assert Mul3(Transpose3(Rx(t)), Rx(t)) == Mat3(1.0, 0.0, 0.0, 0.0, c * c + s * s, c * -s + s * c, 0.0, -s * c + c * s, -s * -s + c * c);
    assert Mul3(Rx(t), Transpose3(Rx(t))) == Mat3(1.0, 0.0, 0.0, 0.0, c * c + -s * -s, c * s + -s * c, 0.0, s * c + c * -s, s * s + c * c);
  }

  lemma RyOrthonormal(t: UnitAngle)
    ensures Orthonormal(Ry(t))
  {
    var c, s := t.cos, t.sin;
    assert Mul3(Transpose3(Ry(t)), Ry(t)) == Mat3(c * c + -s * -s, 0.0, c * s + -s * c, 0.0, 1.0, 0.0, s * c + c * -s, 0.0, s * s + c * c);
    assert Mul3(Ry(t), Transpose3(Ry(t))) == Mat3(c * c + s * s, 0.0, c * -s + s * c, 0.0, 1.0, 0.0, -s * c + c * s, 0.0, -s * -s + c * c);
  }

  lemma RzOrthonormal(t: UnitAngle)
    ensures Orthonormal(Rz(t))
  {
    var c, s := t.cos, t.sin;
    assert Mul3(Transpose3(Rz(t)), Rz(t)) == Mat3(c * c + s * s, c * -s + s * c, 0.0, -s * c + c * s, -s * -s + c * c, 0.0, 0.0, 0.0, 1.0);
    assert Mul3(Rz(t), Transpose3(Rz(t))) == Mat3(c * c + -s * -s, c * s + -s * c, 0.0, s * c + c * -s, s * s + c * c, 0.0, 0.0, 0.0, 1.0);
  }

  /** The combined rotation of three angles is a rotation block. */
  lemma RotationOrthonormal(a: UnitAngle, b: UnitAngle, c: UnitAngle)
    ensures Orthonormal(Rotation(a, b, c))
  {
    RxOrthonormal(a);
    RyOrthonormal(b);
    RzOrthonormal(c);
    OrthonormalProduct(Rz(c), Ry(b));
    OrthonormalProduct(Mul3(Rz(c), Ry(b)), Rx(a));
  }

  /** Each axis rotation by a unit angle has determinant cos^2 + sin^2 == 1. */
  lemma AxisDeterminants(a: UnitAngle, b: UnitAngle, c: UnitAngle)
    ensures Det3(Rx(a)) == 1.0 && Det3(Ry(b)) == 1.0 && Det3(Rz(c)) == 1.0
  {
  }

  /** The combined rotation of three angles is proper: its determinant is +1, so it
      turns space without mirroring it. */
  lemma DetRotation(a: UnitAngle, b: UnitAngle, c: UnitAngle)
    ensures Det3(Rotation(a, b, c)) == 1.0
  {
    AxisDeterminants(a, b, c);
    DetOfProduct(Rz(c), Ry(b));
    DetOfProduct(Mul3(Rz(c), Ry(b)), Rx(a));
  }

  /** The rotation written out: the usual closed form of z-y-x Euler angles. */
  lemma RotationClosedForm(a: Angle, b: Angle, c: Angle)
    ensures Rotation(a, b, c) == Mat3(
      c.cos * b.cos, c.cos * b.sin * a.sin - c.sin * a.cos, c.cos * b.sin * a.cos + c.sin * a.sin,
      c.sin * b.cos, c.sin * b.sin * a.sin + c.cos * a.cos, c.sin * b.sin * a.cos - c.cos * a.sin,
      -b.sin, b.cos * a.sin, b.cos * a.cos)
  {
    YawPitch(b, c);
  }

  /** The first product, Rz @ Ry. */
  lemma YawPitch(b: Angle, c: Angle)
    ensures Mul3(Rz(c), Ry(b)) == Mat3(c.cos * b.cos, -c.sin, c.cos * b.sin,
                                       c.sin * b.cos, c.cos, c.sin * b.sin,
                                       -b.sin, 0.0, b.cos)
  {
  }

  predicate Usable(x: Coordinate, y: Coordinate, z: Coordinate, a: AngleCell, b: AngleCell, c: AngleCell) {
    x.Coordinate? && y.Coordinate? && z.Coordinate? && a.Turn? && b.Turn? && c.Turn?
  }

  /** `euler_to_matrix(x, y, z, a, b, c)`: None when any cell makes the computation
      raise (the exception is caught and None returned), otherwise the rigid
      transform with rotation Rz @ Ry @ Rx and translation (x, y, z). */
  function EulerToMatrix(x: Coordinate, y: Coordinate, z: Coordinate,
                         a: AngleCell, b: AngleCell, c: AngleCell): (r: Option<Mat4>)
    ensures r.Some? <==> Usable(x, y, z, a, b, c)
    ensures r.Some? ==> IsRigid(r.value)
    ensures r.Some? ==> BottomRow(r.value) == [0.0, 0.0, 0.0, 1.0]
    ensures r.Some? ==> Translation(r.value) == Vec3(x.value, y.value, z.value)
    ensures r.Some? ==> RotationBlock(r.value) == Rotation(a.angle, b.angle, c.angle)
  {
    if Usable(x, y, z, a, b, c) then
      RotationOrthonormal(a.angle, b.angle, c.angle);
      DetRotation(a.angle, b.angle, c.angle);
      Some(Assemble(Rotation(a.angle, b.angle, c.angle), Vec3(x.value, y.value, z.value)))
    else None
  }

  /** For numeric cells the result is exactly the assembled transform. */
  lemma EulerOfNumbers(x: real, y: real, z: real, a: UnitAngle, b: UnitAngle, c: UnitAngle)
    ensures EulerToMatrix(Coordinate(x), Coordinate(y), Coordinate(z), Turn(a), Turn(b), Turn(c))
            == Some(Assemble(Rotation(a, b, c), Vec3(x, y, z)))
  {
  }

  /** A zero angle leaves every axis fixed. */
  lemma ZeroAxesAreIdentity(t: Angle)
    requires t.cos == 1.0 && t.sin == 0.0
    ensures Rx(t) == Identity3() && Ry(t) == Identity3() && Rz(t) == Identity3()
  {
  }

  /** Three zero angles give no rotation at all. */
  lemma ZeroRotationIsIdentity(t: Angle)
    requires t.cos == 1.0 && t.sin == 0.0
    ensures Rotation(t, t, t) == Identity3()
  {
    ZeroAxesAreIdentity(t);
    IdentitySquare(Identity3());
  }

  /** With all three angles zero the rotation block is the identity, so the pose is a
      pure translation. */
  lemma ZeroAnglesArePureTranslation(x: real, y: real, z: real, t: UnitAngle)
    requires t.cos == 1.0 && t.sin == 0.0
    ensures EulerToMatrix(Coordinate(x), Coordinate(y), Coordinate(z), Turn(t), Turn(t), Turn(t))
            == Some(Assemble(Identity3(), Vec3(x, y, z)))
  {
    EulerOfNumbers(x, y, z, t, t, t);
    ZeroRotationIsIdentity(t);
  }

  /** The all-zero pose (0, 0, 0, 0, 0, 0) gives np.eye(4). */
  lemma ZeroPoseIsIdentity(x: real, y: real, z: real, t: UnitAngle)
    requires x == 0.0 && y == 0.0 && z == 0.0
    requires t.cos == 1.0 && t.sin == 0.0
    ensures EulerToMatrix(Coordinate(x), Coordinate(y), Coordinate(z), Turn(t), Turn(t), Turn(t))
            == Some(Identity4())
  {
    ZeroAnglesArePureTranslation(x, y, z, t);
    AssembleIdentity(Identity3(), Vec3(x, y, z));
  }

  // ---------------------------------------------------------------- convert_to_epoch

  /** A Timestamp cell as pandas reads it: from an integer column, from a float
      column (a column of integers with an empty cell is read as floats), or text. */
  datatype TimestampCell =
    | IntegerCell(i: int)
    | FloatCell(r: real)     // a finite float
    | NotANumberCell         // an empty cell of a float column
    | InfiniteCell
    | TextCell(s: string)

  /** The two `datetime.strptime` formats, '%Y-%m-%d %H:%M:%S.%f' and
      '%Y-%m-%d %H:%M:%S', each followed by `dt.timestamp()`: the local-time seconds
      since the epoch, or None when the text does not match the format. */
  datatype DateParsers = DateParsers(withFraction: string -> Option<real>,
                                     withoutFraction: string -> Option<real>)

  /** Why `convert_to_epoch` raises. */
  datatype TimestampError =
    | NoFormatMatched   // the ValueError of the second strptime
    | NotText           // `int(nan)` raises ValueError, and strptime then raises TypeError
    | Overflow          // `int(inf)` raises OverflowError, which is not caught

  /** `int(seconds * 1000)`: milliseconds, truncated toward zero. */
  function EpochMillis(seconds: real): (ms: int)
    ensures seconds >= 0.0 ==> ms as real <= seconds * 1000.0 < ms as real + 1.0
  {
    Decimal.TruncateToInt(seconds * 1000.0)
  }

  /** `convert_to_epoch(timestamp)`: `int(timestamp)` when that succeeds; otherwise,
      for text only, the fractional-seconds format, then the plain format. */
  function ConvertToEpoch(cell: TimestampCell, dates: DateParsers): (r: Result<int, TimestampError>)
    ensures cell.IntegerCell? ==> r == Ok(cell.i)
    ensures cell.FloatCell? && cell.r >= 0.0 ==> r.Ok? && r.value as real <= cell.r < r.value as real + 1.0
    ensures cell.FloatCell? && cell.r < 0.0 ==> r.Ok? && r.value as real - 1.0 < cell.r <= r.value as real
  {
    match cell
    case IntegerCell(i) => Ok(i)
    case FloatCell(r) => Ok(Decimal.TruncateToInt(r))
    case NotANumberCell => Err(NotText)
    case InfiniteCell => Err(Overflow)
    case TextCell(s) =>
      match Decimal.ParseInt(s)
      case Some(n) => Ok(n)
      case None =>
        match dates.withFraction(s)
        case Some(seconds) => Ok(EpochMillis(seconds))
        case None =>
          match dates.withoutFraction(s)
          case Some(seconds) => Ok(EpochMillis(seconds))
          case None => Err(NoFormatMatched)
  }

  /** Epoch-millisecond text comes back as the same integer, and no date format is
      consulted for it: the result is the same whatever the date parsers say. */
  lemma IntegerTextUnchanged(n: int, dates: DateParsers, other: DateParsers)
    ensures ConvertToEpoch(TextCell(Decimal.FormatInt(n)), dates) == Ok(n)
    ensures ConvertToEpoch(TextCell(Decimal.FormatInt(n)), dates)
            == ConvertToEpoch(TextCell(Decimal.FormatInt(n)), other)
  {
    Decimal.ParseFormatInt(n);
  }

  /** Dates are parsed only when `int()` fails, the fractional-seconds format first;
      the result is an error exactly when neither format matches. */
  lemma DateFallbacks(s: string, dates: DateParsers)
    requires Decimal.ParseInt(s).None?
    ensures dates.withFraction(s).Some? ==>
              ConvertToEpoch(TextCell(s), dates) == Ok(EpochMillis(dates.withFraction(s).value))
    ensures dates.withFraction(s).None? && dates.withoutFraction(s).Some? ==>
              ConvertToEpoch(TextCell(s), dates) == Ok(EpochMillis(dates.withoutFraction(s).value))
    ensures ConvertToEpoch(TextCell(s), dates) == Err(NoFormatMatched) <==>
              dates.withFraction(s).None? && dates.withoutFraction(s).None?
  {
  }

  /** Which cells make `convert_to_epoch` raise. */
  lemma ConvertErrors(cell: TimestampCell, dates: DateParsers)
    ensures ConvertToEpoch(cell, dates).Err? <==>
      || cell.NotANumberCell?
      || cell.InfiniteCell?
      || (cell.TextCell? && Decimal.ParseInt(cell.s).None?
          && dates.withFraction(cell.s).None? && dates.withoutFraction(cell.s).None?)
  {
  }

  // ---------------------------------------------------------------- process_csv

  /** The cells of one pose-log row that `process_csv` reads. */
  datatype PoseRow = PoseRow(timestamp: TimestampCell,
                             x: Coordinate, y: Coordinate, z: Coordinate,
                             a: AngleCell, b: AngleCell, c: AngleCell)

  /** The pose log as pandas reads it: its column names and its data rows. */
  datatype PoseLog = PoseLog(columns: seq<string>, rows: seq<PoseRow>)

  const RequiredColumns: seq<string> :=
    ["Timestamp", "X_RIst", "Y_RIst", "Z_RIst", "A_RIst", "B_RIst", "C_RIst"]

  predicate HasRequiredColumns(columns: seq<string>) {
    forall name | name in RequiredColumns :: name in columns
  }

  /** One output row: the epoch timestamp followed by the 16 matrix entries. */
  datatype TransformRow = TransformRow(timestamp: int, entries: seq<real>)

  /** Why `process_csv` produces no table. */
  datatype ProcessError =
    | MissingColumns                                 // a required column is absent
    | NoRows                                         // `df.iloc[0]` raises IndexError
    | InitialTransformFailed                         // row 0's pose gives None
    | BadTimestamp(row: nat, cause: TimestampError)  // the first row whose timestamp raises

  function PoseOf(row: PoseRow): (r: Option<Mat4>)
    ensures r.Some? ==> IsRigid(r.value)
  {
    EulerToMatrix(row.x, row.y, row.z, row.a, row.b, row.c)
  }

  /** `np.linalg.inv(initial_T) @ current_T`, with the inverse of a rigid transform. */
  function Relative(reference: Mat4, current: Mat4): Mat4 {
    Mul4(RigidInverse(reference), current)
  }

  /** `[timestamp] + relative_T.flatten().tolist()`. */
  function Entry(timestamp: int, reference: Mat4, current: Mat4): (e: TransformRow)
    ensures |e.entries| == 16
  {
    TransformRow(timestamp, Flatten(Relative(reference, current)))
  }

  /** The rows appended by the loop over `rows` against the fixed `reference`: a row
      whose pose gives None is skipped, and the first row whose timestamp raises
      aborts the whole loop. */
  function EmitRows(reference: Mat4, rows: seq<PoseRow>, dates: DateParsers)
    : Result<seq<TransformRow>, ProcessError>
    decreases |rows|
  {
    if rows == [] then Ok([])
    else
      var last := |rows| - 1;
      match EmitRows(reference, rows[..last], dates)
      case Err(e) => Err(e)
      case Ok(out) =>
        match ConvertToEpoch(rows[last].timestamp, dates)
        case Err(cause) => Err(BadTimestamp(last, cause))
        case Ok(timestamp) =>
          match PoseOf(rows[last])
          case None => Ok(out)
          case Some(current) => Ok(out + [Entry(timestamp, reference, current)])
  }

  /** `process_csv` up to the output file: the column check, the reference pose of
      row 0, then the loop over all rows (row 0 included). */
  function Process(log: PoseLog, dates: DateParsers): Result<seq<TransformRow>, ProcessError> {
    if !HasRequiredColumns(log.columns) then Err(MissingColumns)
    else if |log.rows| == 0 then Err(NoRows)
    else
      match PoseOf(log.rows[0])
      case None => Err(InitialTransformFailed)
      case Some(reference) => EmitRows(reference, log.rows, dates)
  }

  /** Once a prefix has aborted, the longer run aborts with the same error. */
  lemma {:induction false} AbortPersists(reference: Mat4, rows: seq<PoseRow>, k: nat, dates: DateParsers)
    requires 0 < k <= |rows|
    requires EmitRows(reference, rows[..k], dates).Err?
    ensures EmitRows(reference, rows, dates) == EmitRows(reference, rows[..k], dates)
    decreases |rows| - k
  {
    if k < |rows| {
      var longer := rows[..k + 1];
      assert longer[..k] == rows[..k];
      assert EmitRows(reference, longer, dates) == EmitRows(reference, rows[..k], dates);
      AbortPersists(reference, rows, k + 1, dates);
    } else {
      assert rows[..k] == rows;
    }
  }

  /** The process_csv loop, from `transformations = []` to the end of the row loop. */
  method ProcessCsv(log: PoseLog, dates: DateParsers) returns (r: Result<seq<TransformRow>, ProcessError>)
    ensures r == Process(log, dates)
  {
    if !HasRequiredColumns(log.columns) {
      return Err(MissingColumns);
    }
    if |log.rows| == 0 {
      return Err(NoRows);
    }
    var initial := PoseOf(log.rows[0]);
    if initial.None? {
      return Err(InitialTransformFailed);
    }
    var reference := initial.value;
    var transformations: seq<TransformRow> := [];
    for i := 0 to |log.rows|
      invariant EmitRows(reference, log.rows[..i], dates) == Ok(transformations)
    {
      assert log.rows[..i + 1][..i] == log.rows[..i];
      var row := log.rows[i];
      var timestamp := ConvertToEpoch(row.timestamp, dates);
      if timestamp.Err? {
        AbortPersists(reference, log.rows, i + 1, dates);
        return Err(BadTimestamp(i, timestamp.error));
      }
      var current := PoseOf(row);
      if current.None? {
        continue;
      }
      transformations := transformations + [Entry(timestamp.value, reference, current.value)];
    }
    assert log.rows[..|log.rows|] == log.rows;
    return Ok(transformations);
  }

  // ---------------------------------------------------------------- what process_csv promises

  /** The loop completes exactly when every timestamp converts; otherwise the error
      names the first row whose timestamp raises, with its cause. */
  lemma {:induction false} EmitRowsOutcome(reference: Mat4, rows: seq<PoseRow>, dates: DateParsers)
    ensures EmitRows(reference, rows, dates).Ok? <==>
      forall i | 0 <= i < |rows| :: ConvertToEpoch(rows[i].timestamp, dates).Ok?
    ensures EmitRows(reference, rows, dates).Err? ==>
      var e := EmitRows(reference, rows, dates).error;
      && e.BadTimestamp?
      && e.row < |rows|
      && ConvertToEpoch(rows[e.row].timestamp, dates) == Err(e.cause)
      && forall i | 0 <= i < e.row :: ConvertToEpoch(rows[i].timestamp, dates).Ok?
    decreases |rows|
  {
    if rows != [] {
      var last := |rows| - 1;
      var prefix := rows[..last];
      EmitRowsOutcome(reference, prefix, dates);
      assert forall i | 0 <= i < last :: prefix[i] == rows[i];
    }
  }

  /** The indices of the rows whose pose converts, in increasing order. */
  function KeptIndices(rows: seq<PoseRow>): (ks: seq<nat>)
    ensures forall j | 0 <= j < |ks| :: ks[j] < |rows| && PoseOf(rows[ks[j]]).Some?
    ensures forall j, j' | 0 <= j < j' < |ks| :: ks[j] < ks[j']
    ensures forall i | 0 <= i < |rows| && PoseOf(rows[i]).Some? :: i in ks
    decreases |rows|
  {
    if rows == [] then []
    else
      var last := |rows| - 1;
      var prefix := rows[..last];
      var front := KeptIndices(prefix);
      KeptExtends(rows, front);
      if PoseOf(rows[last]).Some? then front + [last] else front
  }

  /** The indices kept for a prefix, and the last index if its pose converts, are the
      indices kept for the whole sequence. */
  lemma KeptExtends(rows: seq<PoseRow>, front: seq<nat>)
    requires rows != []
    requires var prefix := rows[..|rows| - 1];
      && (forall j | 0 <= j < |front| :: front[j] < |prefix| && PoseOf(prefix[front[j]]).Some?)
      && (forall j, j' | 0 <= j < j' < |front| :: front[j] < front[j'])
      && (forall i | 0 <= i < |prefix| && PoseOf(prefix[i]).Some? :: i in front)
    ensures var ks := if PoseOf(rows[|rows| - 1]).Some? then front + [|rows| - 1] else front;
      && (forall j | 0 <= j < |ks| :: ks[j] < |rows| && PoseOf(rows[ks[j]]).Some?)
      && (forall j, j' | 0 <= j < j' < |ks| :: ks[j] < ks[j'])
      && (forall i | 0 <= i < |rows| && PoseOf(rows[i]).Some? :: i in ks)
  {
    var last := |rows| - 1;
    var prefix := rows[..last];
    assert forall j | 0 <= j < |front| :: rows[front[j]] == prefix[front[j]];
    assert forall i | 0 <= i < last :: prefix[i] == rows[i];
  }

  /** Entry j of `out` belongs to row ks[j]: that row's epoch timestamp and its flattened
      transform relative to the reference. */
  predicate EntriesMatch(reference: Mat4, rows: seq<PoseRow>, dates: DateParsers,
                         out: seq<TransformRow>, ks: seq<nat>) {
    && |out| == |ks|
    && forall j | 0 <= j < |out| ::
         && ks[j] < |rows| && PoseOf(rows[ks[j]]).Some?
         && ConvertToEpoch(rows[ks[j]].timestamp, dates) == Ok(out[j].timestamp)
         && out[j].entries == Flatten(Relative(reference, PoseOf(rows[ks[j]]).value))
  }

  /** A row that adds no entry keeps the entries matched. */
  lemma EntriesMatchKeep(reference: Mat4, rows: seq<PoseRow>, dates: DateParsers,
                         out: seq<TransformRow>, ks: seq<nat>)
    requires rows != [] && EntriesMatch(reference, rows[..|rows| - 1], dates, out, ks)
    ensures EntriesMatch(reference, rows, dates, out, ks)
  {
    var prefix := rows[..|rows| - 1];
    assert forall j | 0 <= j < |ks| :: rows[ks[j]] == prefix[ks[j]];
  }

  /** A row that adds an entry extends both sequences by one. */
  lemma EntriesMatchAppend(reference: Mat4, rows: seq<PoseRow>, dates: DateParsers,
                           out: seq<TransformRow>, ks: seq<nat>, t: int)
    requires rows != [] && EntriesMatch(reference, rows[..|rows| - 1], dates, out, ks)
    requires PoseOf(rows[|rows| - 1]).Some? && ConvertToEpoch(rows[|rows| - 1].timestamp, dates) == Ok(t)
    ensures EntriesMatch(reference, rows, dates,
                         out + [Entry(t, reference, PoseOf(rows[|rows| - 1]).value)], ks + [|rows| - 1])
  {
    EntriesMatchKeep(reference, rows, dates, out, ks);
  }

  /** A completed loop emits one entry per row that converts, in input order: the
      row's epoch timestamp and the flattened transform relative to the reference. */
  lemma {:induction false} EmitRowsEntries(reference: Mat4, rows: seq<PoseRow>, dates: DateParsers)
    requires EmitRows(reference, rows, dates).Ok?
    ensures EntriesMatch(reference, rows, dates, EmitRows(reference, rows, dates).value, KeptIndices(rows))
    decreases |rows|
  {
    if rows != [] {
      var last := |rows| - 1;
      var prefix := rows[..last];
      EmitRowsEntries(reference, prefix, dates);
      var front, ks0 := EmitRows(reference, prefix, dates).value, KeptIndices(prefix);
      if PoseOf(rows[last]).Some? {
        var t := ConvertToEpoch(rows[last].timestamp, dates).value;
        EntriesMatchAppend(reference, rows, dates, front, ks0, t);
      } else {
        EntriesMatchKeep(reference, rows, dates, front, ks0);
      }
    }
  }

  /** Process succeeds exactly when the columns are present, there is a row 0 whose
      pose converts, and every timestamp converts. */
  lemma ProcessOkIff(log: PoseLog, dates: DateParsers)
    ensures Process(log, dates).Ok? <==>
      && HasRequiredColumns(log.columns)
      && |log.rows| > 0
      && PoseOf(log.rows[0]).Some?
      && forall i | 0 <= i < |log.rows| :: ConvertToEpoch(log.rows[i].timestamp, dates).Ok?
  {
    if HasRequiredColumns(log.columns) && |log.rows| > 0 && PoseOf(log.rows[0]).Some? {
      EmitRowsOutcome(PoseOf(log.rows[0]).value, log.rows, dates);
    }
  }

  /** The first entry belongs to row 0 and is the identity: every transform is
      relative to row 0's pose. */
  lemma FirstEntryIsIdentity(log: PoseLog, dates: DateParsers)
    requires Process(log, dates).Ok?
    ensures var out := Process(log, dates).value;
      && |out| > 0
      && ConvertToEpoch(log.rows[0].timestamp, dates) == Ok(out[0].timestamp)
      && out[0].entries == Flatten(Identity4())
  {
    var reference := PoseOf(log.rows[0]).value;
    EmitRowsEntries(reference, log.rows, dates);
    var ks := KeptIndices(log.rows);
    assert 0 in ks;
    assert ks[0] == 0;
    RigidInverseIsInverse(reference);
  }

  /** Every emitted entry is the flattening of a rigid transform. */
  lemma EntriesAreRigid(log: PoseLog, dates: DateParsers)
    requires Process(log, dates).Ok?
    ensures var out := Process(log, dates).value;
      forall j | 0 <= j < |out| :: |out[j].entries| == 16 && IsRigid(Reshape(out[j].entries))
  {
    var reference := PoseOf(log.rows[0]).value;
    var out := Process(log, dates).value;
    var ks := KeptIndices(log.rows);
    EmitRowsEntries(reference, log.rows, dates);
    forall j | 0 <= j < |out|
      ensures |out[j].entries| == 16 && IsRigid(Reshape(out[j].entries))
    {
      var current := PoseOf(log.rows[ks[j]]).value;
      RelativeIsRigid(reference, current);
      ReshapeFlatten(Relative(reference, current));
    }
  }

  /** A further row whose timestamp and pose convert adds its entry at the end. */
  lemma EmitAppend(reference: Mat4, rows: seq<PoseRow>, row: PoseRow, dates: DateParsers,
                   out: seq<TransformRow>, t: int, m: Mat4)
    requires EmitRows(reference, rows, dates) == Ok(out)
    requires ConvertToEpoch(row.timestamp, dates) == Ok(t) && PoseOf(row) == Some(m)
    ensures EmitRows(reference, rows + [row], dates) == Ok(out + [Entry(t, reference, m)])
  {
    assert (rows + [row])[..|rows|] == rows;
  }

  /** Two rows whose timestamps and poses both convert give two entries. */
  lemma EmitTwoRows(reference: Mat4, first: PoseRow, second: PoseRow, dates: DateParsers,
                    t0: int, t1: int, m0: Mat4, m1: Mat4)
    requires ConvertToEpoch(first.timestamp, dates) == Ok(t0) && PoseOf(first) == Some(m0)
    requires ConvertToEpoch(second.timestamp, dates) == Ok(t1) && PoseOf(second) == Some(m1)
    ensures EmitRows(reference, [first, second], dates)
            == Ok([Entry(t0, reference, m0), Entry(t1, reference, m1)])
  {
    var e0 := Entry(t0, reference, m0);
    EmitAppend(reference, [], first, dates, [], t0, m0);
    assert [] + [first] == [first];
    assert [] + [e0] == [e0];
    EmitAppend(reference, [first], second, dates, [Entry(t0, reference, m0)], t1, m1);
    assert [first] + [second] == [first, second];
    assert [e0] + [Entry(t1, reference, m1)] == [e0, Entry(t1, reference, m1)];
  }

  /** The two poses of the scenario below. */
  lemma ScenarioPoses(zero: UnitAngle, one: real, nought: real, row0: PoseRow, row1: PoseRow)
    requires zero.cos == 1.0 && zero.sin == 0.0 && one == 1.0 && nought == 0.0
    requires row0 == PoseRow(IntegerCell(0), Coordinate(nought), Coordinate(nought), Coordinate(nought),
                             Turn(zero), Turn(zero), Turn(zero))
    requires row1 == PoseRow(IntegerCell(100), Coordinate(one), Coordinate(nought), Coordinate(nought),
                             Turn(zero), Turn(zero), Turn(zero))
    ensures PoseOf(row0) == Some(Identity4())
    ensures PoseOf(row1) == Some(Assemble(Identity3(), Vec3(one, nought, nought)))
  {
    ZeroPoseIsIdentity(nought, nought, nought, zero);
    ZeroAnglesArePureTranslation(one, nought, nought, zero);
  }

  /** Against the identity reference, an entry is the flattened pose itself. */
  lemma EntryAgainstIdentity(timestamp: int, reference: Mat4, current: Mat4)
    requires reference == Identity4()
    ensures Entry(timestamp, reference, current) == TransformRow(timestamp, Flatten(current))
  {
    RelativeToIdentity(reference, current);
  }

  /** Two rows whose poses are known give the two entries relative to the first. */
  lemma ProcessTwoRows(log: PoseLog, row0: PoseRow, row1: PoseRow, dates: DateParsers,
                       t0: int, t1: int, m0: Mat4, m1: Mat4)
    requires log == PoseLog(RequiredColumns, [row0, row1])
    requires ConvertToEpoch(row0.timestamp, dates) == Ok(t0) && PoseOf(row0) == Some(m0)
    requires ConvertToEpoch(row1.timestamp, dates) == Ok(t1) && PoseOf(row1) == Some(m1)
    ensures Process(log, dates) == Ok([Entry(t0, m0, m0), Entry(t1, m0, m1)])
  {
    EmitTwoRows(m0, row0, row1, dates, t0, t1, m0, m1);
    assert HasRequiredColumns(log.columns);
  }

  /** The pose log [(t=0, 0, 0, 0, 0, 0, 0), (t=100, 1, 0, 0, 0, 0, 0)] gives the
      identity at t=0 and the translation (1, 0, 0) at t=100; `zero` is the angle 0,
      given by its cosine and sine. */
  lemma TwoPoseScenario(log: PoseLog, row0: PoseRow, row1: PoseRow, zero: UnitAngle,
                        one: real, nought: real, dates: DateParsers, eye: Mat4, shift: Mat4)
    requires zero.cos == 1.0 && zero.sin == 0.0 && one == 1.0 && nought == 0.0
    requires row0 == PoseRow(IntegerCell(0), Coordinate(nought), Coordinate(nought), Coordinate(nought),
                             Turn(zero), Turn(zero), Turn(zero))
    requires row1 == PoseRow(IntegerCell(100), Coordinate(one), Coordinate(nought), Coordinate(nought),
                             Turn(zero), Turn(zero), Turn(zero))
    requires log == PoseLog(RequiredColumns, [row0, row1])
    requires eye == Identity4() && shift == Assemble(Identity3(), Vec3(one, nought, nought))
    ensures Process(log, dates) == Ok([TransformRow(0, Flatten(eye)), TransformRow(100, Flatten(shift))])
  {
    ScenarioPoses(zero, one, nought, row0, row1);
    ProcessTwoRows(log, row0, row1, dates, 0, 100, eye, shift);
    EntryAgainstIdentity(0, eye, eye);
    EntryAgainstIdentity(100, eye, shift);
  }

  // ---------------------------------------------------------------- the output file

  /** The header pandas writes for a frame of 17 unnamed columns: "0,1,...,16". */
  function OutputHeader(): (h: seq<CsvFields.Field>)
    ensures |h| == 17 && forall k | 0 <= k < 17 :: h[k] == CsvFields.IntegerText(k)
  {
    seq(17, k => CsvFields.IntegerText(k))
  }

  /** One data line: the timestamp as an integer, then the matrix entries as floats. */
  function OutputLine(row: TransformRow): (line: seq<CsvFields.Field>)
    ensures |line| == |row.entries| + 1
    ensures line[0] == CsvFields.IntegerText(row.timestamp)
    ensures forall k | 0 <= k < |row.entries| :: line[k + 1] == CsvFields.FloatText(row.entries[k])
  {
    [CsvFields.IntegerText(row.timestamp)] + seq(|row.entries|, k requires 0 <= k < |row.entries| => CsvFields.FloatText(row.entries[k]))
  }

  /** `pd.DataFrame(transformations).to_csv(path, index=False)`: the header line, then
      one line per entry in order. */
  function OutputTable(out: seq<TransformRow>): (table: seq<seq<CsvFields.Field>>)
    ensures |table| == |out| + 1 && table[0] == OutputHeader()
    ensures forall j | 0 <= j < |out| :: table[j + 1] == OutputLine(out[j])
  {
    [OutputHeader()] + seq(|out|, j requires 0 <= j < |out| => OutputLine(out[j]))
  }
}

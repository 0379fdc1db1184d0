/** The transform checker: it reads the transform CSV back line by line, applies
    each transform to a vector and sizes the plot by the largest translation. */
module CheckTransforms {
  import opened Wrappers
  import opened Matrices
  import opened CsvFields

  // ---------------------------------------------------------------- read_csv

  /** Why `read_csv` raises on a line. */
  datatype ReadError =
    | EmptyLine        // `row[0]` of an empty row raises IndexError
    | NotAnInteger     // `int(row[0])` raises ValueError
    | NotANumber       // `np.array(row[1:], dtype=float)` raises ValueError
    | WrongFieldCount  // `.reshape(4, 4)` of anything but 16 values raises ValueError

  /** The 16 fields after the timestamp, read as floats, or None when one is not a number. */
  function ReadNumbers(fields: seq<Field>): (r: Option<seq<real>>)
    ensures r.Some? <==> forall k | 0 <= k < |fields| :: ToReal(fields[k]).Some?
    ensures r.Some? ==> (|r.value| == |fields|
      && forall k | 0 <= k < |fields| :: r.value[k] == ToReal(fields[k]).value)
    decreases |fields|
  {
    if fields == [] then Some([])
    else
      var last := |fields| - 1;
      match ReadNumbers(fields[..last])
      case None => None
      case Some(front) =>
        match ToReal(fields[last])
        case None => None
        case Some(x) => Some(front + [x])
  }

  /** One line of `read_csv`: the integer timestamp and the 4x4 matrix filled row by row
      from the remaining fields. The checks happen in the order Python makes them. */
  function ParseLine(fields: seq<Field>): (r: Result<(int, Mat4), ReadError>)
    ensures r.Ok? <==>
      && |fields| == 17
      && ToInt(fields[0]).Some?
      && forall k | 1 <= k < 17 :: ToReal(fields[k]).Some?
    ensures r.Ok? ==> r.value.0 == ToInt(fields[0]).value
    ensures r.Ok? ==> ReadNumbers(fields[1..]) == Some(Flatten(r.value.1))
  {
    if |fields| == 0 then Err(EmptyLine)
    else
      match ToInt(fields[0])
      case None => Err(NotAnInteger)
      case Some(timestamp) =>
        match ReadNumbers(fields[1..])
        case None => Err(NotANumber)
        case Some(values) =>
          if |values| != 16 then Err(WrongFieldCount)
          else
            FlattenReshape(values);
            Ok((timestamp, Reshape(values)))
  }

  /** A line that is rejected is rejected for the first check it fails. */
  lemma ParseLineErrors(fields: seq<Field>)
    ensures ParseLine(fields) == Err(EmptyLine) <==> |fields| == 0
    ensures ParseLine(fields) == Err(NotAnInteger) <==> |fields| > 0 && ToInt(fields[0]).None?
    ensures ParseLine(fields) == Err(NotANumber) <==>
      && |fields| > 0 && ToInt(fields[0]).Some?
      && exists k | 1 <= k < |fields| :: ToReal(fields[k]).None?
  {
    if |fields| > 0 && ToInt(fields[0]).Some? {
      var rest := fields[1..];
      assert forall k | 1 <= k < |fields| :: fields[k] == rest[k - 1];
      if ReadNumbers(rest).None? {
        var k :| 0 <= k < |rest| && ToReal(rest[k]).None?;
        assert ToReal(fields[k + 1]).None?;
      }
    }
  }

  /** `read_csv(file_path)`: every line of the file, the first included, becomes a
      timestamp and a matrix; the first line that cannot be read raises, and no
      lists are returned. */
  method ReadCsv(lines: seq<seq<Field>>) returns (r: Result<(seq<int>, seq<Mat4>), ReadError>)
    ensures r.Ok? <==> forall i | 0 <= i < |lines| :: ParseLine(lines[i]).Ok?
    ensures r.Ok? ==>
      var (timestamps, matrices) := r.value;
      && |timestamps| == |lines| && |matrices| == |lines|
      && forall i | 0 <= i < |lines| :: ParseLine(lines[i]) == Ok((timestamps[i], matrices[i]))
    ensures r.Err? ==> exists i | 0 <= i < |lines| ::
      && ParseLine(lines[i]) == Err(r.error)
      && forall h | 0 <= h < i :: ParseLine(lines[h]).Ok?
  {
    var timestamps: seq<int> := [];
    var matrices: seq<Mat4> := [];
    for i := 0 to |lines|
      invariant |timestamps| == i && |matrices| == i
      invariant forall h | 0 <= h < i :: ParseLine(lines[h]) == Ok((timestamps[h], matrices[h]))
    {
      var parsed := ParseLine(lines[i]);
      if parsed.Err? {
        return Err(parsed.error);
      }
      var (timestamp, matrix) := parsed.value;
      timestamps := timestamps + [timestamp];
      matrices := matrices + [matrix];
    }
    return Ok((timestamps, matrices));
  }

  // ---------------------------------------------------------------- transform_vector

  /** `transform_vector(matrix, vector)`: the rotation block times the vector plus the
      translation column. */
  function TransformVector(m: Mat4, v: Vec3): Vec3 {
    Add3(Apply3(RotationBlock(m), v), Translation(m))
  }

  /** The identity transform leaves every vector where it is. */
  lemma IdentityKeepsVector(m: Mat4, v: Vec3)
    requires m == Identity4()
    ensures TransformVector(m, v) == v
  {
  }

  /** A pure translation adds its translation. */
  lemma TranslationAdds(r: Mat3, t: Vec3, v: Vec3)
    requires r == Identity3()
    ensures TransformVector(Assemble(r, t), v) == Add3(v, t)
  {
  }

  /** Applying a product of homogeneous transforms applies the right factor first. */
  lemma ComposedTransform(a: Mat4, b: Mat4, v: Vec3)
    requires IsAffine(a) && IsAffine(b)
    ensures TransformVector(Mul4(a, b), v) == TransformVector(a, TransformVector(b, v))
  {
    AffineIsAssembled(a);
    AffineIsAssembled(b);
    ComposeAffine(RotationBlock(a), Translation(a), RotationBlock(b), Translation(b));
    ApplyOfProduct(RotationBlock(a), RotationBlock(b), v);
    ApplyOfSum(RotationBlock(a), Apply3(RotationBlock(b), v), Translation(b));
  }

  /** A rigid transform keeps the distance between two transformed vectors; so does
      any transform with an orthonormal block. */
  lemma RigidKeepsLengths(m: Mat4, u: Vec3, w: Vec3)
    requires IsIsometry(m)
    ensures var d := Add3(TransformVector(m, u), Neg3(TransformVector(m, w)));
      Dot(d, d) == Dot(Add3(u, Neg3(w)), Add3(u, Neg3(w)))
  {
    var r := RotationBlock(m);
    var diff := Add3(u, Neg3(w));
    DifferenceOfTransformed(r, Translation(m), u, w);
    ApplyKeepsDot(r, diff, diff);
  }

  /** Moving two points by the same rotation and shift moves their difference by the
      rotation alone. */
  lemma DifferenceOfTransformed(r: Mat3, t: Vec3, u: Vec3, w: Vec3)
    ensures Add3(Add3(Apply3(r, u), t), Neg3(Add3(Apply3(r, w), t))) == Apply3(r, Add3(u, Neg3(w)))
  {
    ApplyOfSum(r, u, Neg3(w));
    ApplyOfNeg(r, w);
    ShiftCancels(Apply3(r, u), Apply3(r, w), t);
  }

  /** Shifting two vectors by the same t leaves their difference unchanged. */
  lemma ShiftCancels(a: Vec3, b: Vec3, t: Vec3)
    ensures Add3(Add3(a, t), Neg3(Add3(b, t))) == Add3(a, Neg3(b))
  {
  }

  // ---------------------------------------------------------------- calculate_xyzabc, max_extent

  /** The first three values of `calculate_xyzabc(matrix)`: the translation column, which
      is where the transform sends the origin. */
  function XyzOf(m: Mat4): (p: Vec3)
    ensures p == TransformVector(m, Vec3(0.0, 0.0, 0.0))
  {
    Translation(m)
  }

  function Abs(x: real): real {
    if x < 0.0 then -x else x
  }

  /** The absolute translation components of one matrix. */
  function Extents(m: Mat4): seq<real> {
    [Abs(m.m03), Abs(m.m13), Abs(m.m23)]
  }

  /** `np.max(np.abs([matrix[:3, 3] for matrix in matrices]))`; None for no matrices,
      where `np.max` of an empty array raises ValueError. */
  function MaxExtent(matrices: seq<Mat4>): (r: Option<real>)
    ensures r.Some? <==> |matrices| > 0
    ensures r.Some? ==> forall i, k | 0 <= i < |matrices| && 0 <= k < 3 :: Extents(matrices[i])[k] <= r.value
    ensures r.Some? ==> exists i, k | 0 <= i < |matrices| && 0 <= k < 3 :: Extents(matrices[i])[k] == r.value
    decreases |matrices|
  {
    if |matrices| == 0 then None
    else
      var last := |matrices| - 1;
      var e := Extents(matrices[last]);
      var here := if e[0] >= e[1] && e[0] >= e[2] then e[0] else if e[1] >= e[2] then e[1] else e[2];
      assert exists k | 0 <= k < 3 :: e[k] == here;
      match MaxExtent(matrices[..last])
      case None => Some(here)
      case Some(front) =>
        assert forall i | 0 <= i < last :: matrices[..last][i] == matrices[i];
        Some(if front >= here then front else here)
  }
}

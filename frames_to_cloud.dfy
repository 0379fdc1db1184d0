/** The frame fuser: it loads the transform table keyed by epoch milliseconds, pairs
    each depth frame with its colour frame by file name, moves each frame's cloud by
    the transform of the nearest timestamp and concatenates the clouds. */
module FramesToCloud {
  import opened Wrappers
  import opened Matrices
  import Decimal
  import CheckTransforms

  // ---------------------------------------------------------------- the transformations dict

  /** A Python dict from epoch milliseconds to matrices: its keys in insertion order
      and its entries. Assigning to a key that is present keeps the key's position. */
  datatype Table = Table(keys: seq<int>, entries: map<int, Mat4>)

  predicate Valid(t: Table) {
    && (forall i, j | 0 <= i < j < |t.keys| :: t.keys[i] != t.keys[j])
    && (forall k | k in t.keys :: k in t.entries)
    && (forall k | k in t.entries :: k in t.keys)
  }

  function EmptyTable(): (t: Table)
    ensures Valid(t) && |t.keys| == 0
  {
    Table([], map[])
  }

  /** `transformations[k] = v`. */
  function Put(t: Table, k: int, v: Mat4): (r: Table)
    requires Valid(t)
    ensures Valid(r)
    ensures r.entries == t.entries[k := v]
    ensures k in t.keys ==> r.keys == t.keys
    ensures k !in t.keys ==> r.keys == t.keys + [k]
  {
    Table(if k in t.keys then t.keys else t.keys + [k], t.entries[k := v])
  }

  /** `int(row[0])` on a row of `np.genfromtxt`: the float truncated toward zero. */
  function KeyOf(row: seq<real>): int
    requires |row| > 0
  {
    Decimal.TruncateToInt(row[0])
  }

  /** `row[1:].reshape(4, 4)`. */
  function MatrixOf(row: seq<real>): Mat4
    requires |row| == 17
  {
    Reshape(row[1..])
  }

  predicate WellShaped(rows: seq<seq<real>>) {
    forall i | 0 <= i < |rows| :: |rows[i]| == 17
  }

  /** The dict after the loop over well-shaped rows, one assignment per row in order. */
  function Insert(rows: seq<seq<real>>): (t: Table)
    requires WellShaped(rows)
    ensures Valid(t)
    decreases |rows|
  {
    if rows == [] then EmptyTable()
    else
      var last := |rows| - 1;
      Put(Insert(rows[..last]), KeyOf(rows[last]), MatrixOf(rows[last]))
  }

  /** Why no table is built. */
  datatype TableError =
    | SingleDataRow        // genfromtxt returns a flat array, and `row[0]` of a float raises
    | NotSeventeenColumns  // `reshape(4, 4)` (or genfromtxt itself) raises on another width

  /** Lines 20-25 on the data rows `np.genfromtxt` returns after the skipped header. */
  function TableOf(rows: seq<seq<real>>): Result<Table, TableError> {
    if |rows| == 1 then Err(SingleDataRow)
    else if !WellShaped(rows) then Err(NotSeventeenColumns)
    else Ok(Insert(rows))
  }

  method BuildTable(rows: seq<seq<real>>) returns (r: Result<Table, TableError>)
    ensures r == TableOf(rows)
  {
    if |rows| == 1 {
      return Err(SingleDataRow);
    }
    var transformations := EmptyTable();
    for i := 0 to |rows|
      invariant WellShaped(rows[..i])
      invariant transformations == Insert(rows[..i])
    {
      if |rows[i]| != 17 {
        return Err(NotSeventeenColumns);
      }
      assert rows[..i + 1][..i] == rows[..i];
      transformations := Put(transformations, KeyOf(rows[i]), MatrixOf(rows[i]));
    }
    assert rows[..|rows|] == rows;
    return Ok(transformations);
  }

  /** Every row's key is in the table, and nothing else is. */
  lemma {:induction false} InsertKeys(rows: seq<seq<real>>, k: int)
    requires WellShaped(rows)
    ensures k in Insert(rows).keys <==> exists i | 0 <= i < |rows| :: KeyOf(rows[i]) == k
    decreases |rows|
  {
    if rows != [] {
      var last := |rows| - 1;
      var prefix := rows[..last];
      assert forall i | 0 <= i < last :: prefix[i] == rows[i];
      InsertKeys(prefix, k);
      if exists i | 0 <= i < |rows| :: KeyOf(rows[i]) == k {
        var i :| 0 <= i < |rows| && KeyOf(rows[i]) == k;
        if i < last {
          assert KeyOf(prefix[i]) == k;
        }
      }
    }
  }

  /** When a timestamp repeats, the matrix of its last row is kept. */
  lemma {:induction false} LastRowWins(rows: seq<seq<real>>, i: nat)
    requires WellShaped(rows) && i < |rows|
    requires forall j | i < j < |rows| :: KeyOf(rows[j]) != KeyOf(rows[i])
    ensures KeyOf(rows[i]) in Insert(rows).entries
    ensures Insert(rows).entries[KeyOf(rows[i])] == MatrixOf(rows[i])
    decreases |rows|
  {
    var last := |rows| - 1;
    if i < last {
      var prefix := rows[..last];
      assert forall j | 0 <= j < last :: prefix[j] == rows[j];
      LastRowWins(prefix, i);
      assert KeyOf(rows[last]) != KeyOf(rows[i]);
    }
  }

  /** Keys are kept in the order of their first rows: before any row with a later key
      there is a row with each earlier key. */
  lemma {:induction false} KeysInFirstRowOrder(rows: seq<seq<real>>, a: nat, b: nat, i: nat)
    requires WellShaped(rows) && a < b < |Insert(rows).keys| && i < |rows|
    requires KeyOf(rows[i]) == Insert(rows).keys[b]
    ensures exists h | 0 <= h < i :: KeyOf(rows[h]) == Insert(rows).keys[a]
    decreases |rows|
  {
    var last := |rows| - 1;
    var prefix := rows[..last];
    assert forall j | 0 <= j < last :: prefix[j] == rows[j];
    var before := Insert(prefix);
    var keys := Insert(rows).keys;
    if b < |before.keys| {
      assert before.keys[a] == keys[a] && before.keys[b] == keys[b];
      if i < last {
        KeysInFirstRowOrder(prefix, a, b, i);
        var h :| 0 <= h < i && KeyOf(prefix[h]) == before.keys[a];
        assert KeyOf(rows[h]) == keys[a];
      } else {
        InsertKeys(prefix, keys[b]);
        var j :| 0 <= j < last && KeyOf(prefix[j]) == keys[b];
        KeysInFirstRowOrder(prefix, a, b, j);
        var h :| 0 <= h < j && KeyOf(prefix[h]) == before.keys[a];
        assert KeyOf(rows[h]) == keys[a];
      }
    } else {
      // keys[b] is the key of the last row, new to the table, so row i is the last row
      assert b == |before.keys| && keys[b] == KeyOf(rows[last]) && keys[b] !in before.keys;
      if i < last {
        assert KeyOf(prefix[i]) == keys[b];
        InsertKeys(prefix, keys[b]);
        assert false;
      }
      assert keys[a] in before.keys;
      InsertKeys(prefix, keys[a]);
      var h :| 0 <= h < last && KeyOf(prefix[h]) == keys[a];
      assert KeyOf(rows[h]) == keys[a];
    }
  }

  // ---------------------------------------------------------------- find_closest_transformation

  function Distance(k: int, t: int): nat {
    if k >= t then k - t else t - k
  }

  /** `min(keys, key=lambda k: abs(k - t))`: the position of the first key at the least
      distance, as `min` keeps the first of equal candidates. */
  function ClosestIndex(keys: seq<int>, t: int): (i: nat)
    requires |keys| > 0
    ensures i < |keys|
    ensures forall j | 0 <= j < |keys| :: Distance(keys[i], t) <= Distance(keys[j], t)
    ensures forall j | 0 <= j < i :: Distance(keys[j], t) > Distance(keys[i], t)
    decreases |keys|
  {
    if |keys| == 1 then 0
    else
      var last := |keys| - 1;
      var best := ClosestIndex(keys[..last], t);
      assert forall j | 0 <= j < last :: keys[..last][j] == keys[j];
      if Distance(keys[last], t) < Distance(keys[best], t) then last else best
  }

  /** Why a lookup fails. */
  datatype LookupError = NoTransformations  // `min` of no keys raises ValueError

  /** `find_closest_transformation(epoch_time, transformations)`. */
  function FindClosest(t: int, table: Table): (r: Result<Mat4, LookupError>)
    requires Valid(table)
    ensures r.Err? <==> |table.keys| == 0
    ensures r.Ok? ==> exists k | k in table.keys ::
      && r.value == table.entries[k]
      && forall k' | k' in table.keys :: Distance(k, t) <= Distance(k', t)
  {
    if |table.keys| == 0 then Err(NoTransformations)
    else
      var i := ClosestIndex(table.keys, t);
      Ok(table.entries[table.keys[i]])
  }

  /** A time that is itself a key gets its own matrix. */
  lemma ExactKeyFound(t: int, table: Table)
    requires Valid(table) && t in table.keys
    ensures FindClosest(t, table) == Ok(table.entries[t])
  {
    var i := ClosestIndex(table.keys, t);
    var j :| 0 <= j < |table.keys| && table.keys[j] == t;
    assert Distance(table.keys[i], t) <= Distance(table.keys[j], t);
  }

  /** Of two equally close keys, the one inserted first wins. */
  lemma FirstInsertedWinsTie(t: int, table: Table, a: nat, b: nat)
    requires Valid(table) && a < b < |table.keys|
    requires Distance(table.keys[a], t) == Distance(table.keys[b], t)
    ensures ClosestIndex(table.keys, t) != b
  {
  }

  /** Against the transforms at 0 and 100, a frame at 95 gets the one at 100. */
  lemma NearestOfTwo(table: Table, early: Mat4, late: Mat4)
    requires table == Table([0, 100], map[0 := early, 100 := late])
    ensures FindClosest(95, table) == Ok(late)
  {
    assert Valid(table);
    var i := ClosestIndex(table.keys, 95);
    assert Distance(table.keys[1], 95) < Distance(table.keys[0], 95);
  }

  // ---------------------------------------------------------------- pairing the frames

  /** A point of a cloud: its position and its colour. */
  datatype Point = Point(position: Vec3, colour: Vec3)

  /** `pcd.transform(matrix)`: every position moved by the matrix, colours unchanged. */
  function TransformCloud(m: Mat4, cloud: seq<Point>): (moved: seq<Point>)
    ensures |moved| == |cloud|
    ensures forall k | 0 <= k < |cloud| ::
      moved[k] == Point(CheckTransforms.TransformVector(m, cloud[k].position), cloud[k].colour)
  {
    seq(|cloud|, k requires 0 <= k < |cloud| =>
      Point(CheckTransforms.TransformVector(m, cloud[k].position), cloud[k].colour))
  }

  /** The identity transform leaves a cloud as it is. */
  lemma TransformCloudIdentity(cloud: seq<Point>)
    ensures TransformCloud(Identity4(), cloud) == cloud
  {
    forall k | 0 <= k < |cloud| ensures TransformCloud(Identity4(), cloud)[k] == cloud[k] {
      CheckTransforms.IdentityKeepsVector(Identity4(), cloud[k].position);
    }
  }

  /** Transforming by a product of homogeneous transforms moves the cloud by the right
      factor first and then by the left one. */
  lemma TransformCloudCompose(a: Mat4, b: Mat4, cloud: seq<Point>)
    requires IsAffine(a) && IsAffine(b)
    ensures TransformCloud(Mul4(a, b), cloud) == TransformCloud(a, TransformCloud(b, cloud))
  {
    var inner := TransformCloud(b, cloud);
    forall k | 0 <= k < |cloud|
      ensures TransformCloud(Mul4(a, b), cloud)[k] == TransformCloud(a, inner)[k]
    {
      CheckTransforms.ComposedTransform(a, b, cloud[k].position);
    }
  }

  /** A rigid transform, and any transform with an orthonormal block, keeps the
      distance between any two points of the cloud. */
  lemma TransformCloudKeepsDistances(m: Mat4, cloud: seq<Point>)
    requires IsIsometry(m)
    ensures var moved := TransformCloud(m, cloud);
      forall i, j | 0 <= i < |cloud| && 0 <= j < |cloud| ::
        Dot(Add3(moved[i].position, Neg3(moved[j].position)), Add3(moved[i].position, Neg3(moved[j].position)))
        == Dot(Add3(cloud[i].position, Neg3(cloud[j].position)), Add3(cloud[i].position, Neg3(cloud[j].position)))
  {
    var moved := TransformCloud(m, cloud);
    forall i, j | 0 <= i < |cloud| && 0 <= j < |cloud|
      ensures Dot(Add3(moved[i].position, Neg3(moved[j].position)), Add3(moved[i].position, Neg3(moved[j].position)))
        == Dot(Add3(cloud[i].position, Neg3(cloud[j].position)), Add3(cloud[i].position, Neg3(cloud[j].position)))
    {
      CheckTransforms.RigidKeepsLengths(m, cloud[i].position, cloud[j].position);
    }
  }

  /** `s.endswith(suffix)`. */
  predicate EndsWith(s: string, suffix: string) {
    |suffix| <= |s| && s[|s| - |suffix|..] == suffix
  }

  /** The position of the last '.' in s, if any. */
  function LastDot(s: string): (r: Option<nat>)
    ensures r.Some? ==> (r.value < |s| && s[r.value] == '.'
      && forall k | r.value < k < |s| :: s[k] != '.')
    ensures r.None? ==> forall k | 0 <= k < |s| :: s[k] != '.'
    decreases |s|
  {
    if s == [] then None
    else if s[|s| - 1] == '.' then Some(|s| - 1)
    else LastDot(s[..|s| - 1])
  }

  /** `os.path.splitext(name)[0]` for a name without a directory part: the name up to its
      last dot, unless everything before that dot is dots (a leading dot does not start
      an extension). */
  function SplitExtRoot(name: string): (root: string)
    ensures |root| <= |name| && root == name[..|root|]
  {
    match LastDot(name)
    case None => name
    case Some(i) =>
      if exists k | 0 <= k < i :: name[k] != '.' then name[..i] else name
  }

  /** `splitext` cuts at the dot before an extension without dots, once the root has a
      character other than '.'. */
  lemma SplitExtRootOfExtension(s: string, e: string)
    requires exists k | 0 <= k < |s| :: s[k] != '.'
    requires forall k | 0 <= k < |e| :: e[k] != '.'
    ensures SplitExtRoot(s + "." + e) == s
  {
    var name := s + "." + e;
    assert name[|s|] == '.';
    assert forall k | |s| < k < |name| :: name[k] == e[k - |s| - 1];
    assert LastDot(name) == Some(|s|);
    var k :| 0 <= k < |s| && s[k] != '.';
    assert name[k] == s[k];
    assert name[..|s|] == s;
  }

  /** The colour frame paired with a depth frame: `f"{epoch_time}.jpg"`. */
  function PartnerName(epoch: int): string {
    Decimal.FormatInt(epoch) + ".jpg"
  }

  /** Why the loop over the depth folder raises. */
  datatype FrameError =
    | BadStem(name: string)   // `int()` of the name's stem raises ValueError
    | Lookup(cause: LookupError)

  /** The loop over the depth listing: the clouds appended to
      `all_transformed_points_list`, given the names in the colour folder and
      `project`, which builds a frame's cloud from its two image files. */
  function PairSpec(listing: seq<string>, colours: set<string>, table: Table,
                    project: (string, string) -> seq<Point>): Result<seq<seq<Point>>, FrameError>
    requires Valid(table)
    decreases |listing|
  {
    if listing == [] then Ok([])
    else
      var last := |listing| - 1;
      match PairSpec(listing[..last], colours, table, project)
      case Err(e) => Err(e)
      case Ok(clouds) =>
        var name := listing[last];
        if !EndsWith(name, ".png") then Ok(clouds)
        else
          match Decimal.ParseInt(SplitExtRoot(name))
          case None => Err(BadStem(name))
          case Some(epoch) =>
            if PartnerName(epoch) !in colours then Ok(clouds)
            else
              match FindClosest(epoch, table)
              case Err(cause) => Err(Lookup(cause))
              case Ok(m) => Ok(clouds + [TransformCloud(m, project(name, PartnerName(epoch)))])
  }

  method PairFrames(listing: seq<string>, colours: set<string>, table: Table,
                    project: (string, string) -> seq<Point>) returns (r: Result<seq<seq<Point>>, FrameError>)
    requires Valid(table)
    ensures r == PairSpec(listing, colours, table, project)
  {
    var all: seq<seq<Point>> := [];
    for i := 0 to |listing|
      invariant PairSpec(listing[..i], colours, table, project) == Ok(all)
    {
      assert listing[..i + 1][..i] == listing[..i];
      var name := listing[i];
      if !EndsWith(name, ".png") {
        continue;
      }
      var stem := Decimal.ParseInt(SplitExtRoot(name));
      if stem.None? {
        PairAbortPersists(listing, i + 1, colours, table, project);
        return Err(BadStem(name));
      }
      var epoch := stem.value;
      var colourName := PartnerName(epoch);
      if colourName !in colours {
        continue;
      }
      var transformation := FindClosest(epoch, table);
      if transformation.Err? {
        PairAbortPersists(listing, i + 1, colours, table, project);
        return Err(Lookup(transformation.error));
      }
      all := all + [TransformCloud(transformation.value, project(name, colourName))];
    }
    assert listing[..|listing|] == listing;
    return Ok(all);
  }

  lemma {:induction false} PairAbortPersists(listing: seq<string>, k: nat, colours: set<string>,
                                             table: Table, project: (string, string) -> seq<Point>)
    requires Valid(table) && 0 < k <= |listing|
    requires PairSpec(listing[..k], colours, table, project).Err?
    ensures PairSpec(listing, colours, table, project) == PairSpec(listing[..k], colours, table, project)
    decreases |listing| - k
  {
    if k < |listing| {
      assert listing[..k + 1][..k] == listing[..k];
      PairAbortPersists(listing, k + 1, colours, table, project);
    } else {
      assert listing[..k] == listing;
    }
  }

  /** The depth frame a name denotes, when it is one that gets paired: a ".png" name
      whose stem is an integer and whose partner is in the colour folder. */
  predicate Paired(name: string, colours: set<string>) {
    && EndsWith(name, ".png")
    && Decimal.ParseInt(SplitExtRoot(name)).Some?
    && PartnerName(Decimal.ParseInt(SplitExtRoot(name)).value) in colours
  }

  /** The elements of xs that satisfy p, in order. */
  function Filter<T>(xs: seq<T>, p: T -> bool): seq<T>
    decreases |xs|
  {
    if xs == [] then []
    else Filter(xs[..|xs| - 1], p) + (if p(xs[|xs| - 1]) then [xs[|xs| - 1]] else [])
  }

  /** Every element kept satisfies p. */
  lemma {:induction false} FilterSatisfies<T>(xs: seq<T>, p: T -> bool)
    ensures forall j | 0 <= j < |Filter(xs, p)| :: p(Filter(xs, p)[j])
    decreases |xs|
  {
    if xs != [] {
      FilterSatisfies(xs[..|xs| - 1], p);
    }
  }

  /** The names of the listing that get paired, in listing order. */
  function PairedNames(listing: seq<string>, colours: set<string>): (names: seq<string>)
    ensures forall j | 0 <= j < |names| :: Paired(names[j], colours)
  {
    FilterSatisfies(listing, n => Paired(n, colours));
    Filter(listing, n => Paired(n, colours))
  }

  /** Every name kept comes from the listing, and every name of the listing that gets
      paired is kept. */
  lemma PairedNamesComplete(listing: seq<string>, colours: set<string>)
    ensures forall n | n in PairedNames(listing, colours) :: n in listing
    ensures forall i | 0 <= i < |listing| && Paired(listing[i], colours) :: listing[i] in PairedNames(listing, colours)
  {
    var p := n => Paired(n, colours);
    FilterFromList(listing, p);
    forall i | 0 <= i < |listing| && Paired(listing[i], colours)
      ensures listing[i] in PairedNames(listing, colours)
    {
      FilterKeeps(listing, p, i);
    }
  }

  lemma {:induction false} FilterFromList<T>(xs: seq<T>, p: T -> bool)
    ensures forall x | x in Filter(xs, p) :: x in xs
    decreases |xs|
  {
    if xs != [] {
      var prefix := xs[..|xs| - 1];
      FilterFromList(prefix, p);
      assert forall x | x in prefix :: x in xs;
    }
  }

  lemma {:induction false} FilterKeeps<T>(xs: seq<T>, p: T -> bool, i: nat)
    requires i < |xs| && p(xs[i])
    ensures xs[i] in Filter(xs, p)
    decreases |xs|
  {
    var last := |xs| - 1;
    if i < last {
      var prefix := xs[..last];
      assert prefix[i] == xs[i];
      FilterKeeps(prefix, p, i);
    }
  }

  /** What the loop promises: one cloud per paired name, in listing order, each the
      frame's projection moved by the transform nearest to its epoch. */
  lemma {:induction false} PairedClouds(listing: seq<string>, colours: set<string>, table: Table,
                                        project: (string, string) -> seq<Point>)
    requires Valid(table)
    requires PairSpec(listing, colours, table, project).Ok?
    ensures var clouds, names := PairSpec(listing, colours, table, project).value, PairedNames(listing, colours);
      && |clouds| == |names|
      && forall j | 0 <= j < |names| ::
           var epoch := Decimal.ParseInt(SplitExtRoot(names[j])).value;
           && FindClosest(epoch, table).Ok?
           && clouds[j] == TransformCloud(FindClosest(epoch, table).value, project(names[j], PartnerName(epoch)))
    decreases |listing|
  {
    if listing != [] {
      PairedClouds(listing[..|listing| - 1], colours, table, project);
    }
  }

  /** A name on which the loop raises: a ".png" name whose stem is not an integer, or
      a paired frame when there are no transformations to look up. */
  predicate Fails(name: string, colours: set<string>, table: Table) {
    && EndsWith(name, ".png")
    && (Decimal.ParseInt(SplitExtRoot(name)).None? || (Paired(name, colours) && |table.keys| == 0))
  }

  /** After a prefix that went through, the next name raises exactly when it fails. */
  lemma PairStep(listing: seq<string>, colours: set<string>, table: Table,
                 project: (string, string) -> seq<Point>)
    requires Valid(table) && listing != []
    requires PairSpec(listing[..|listing| - 1], colours, table, project).Ok?
    ensures var name := listing[|listing| - 1];
      && (PairSpec(listing, colours, table, project).Err? <==> Fails(name, colours, table))
      && (PairSpec(listing, colours, table, project).Err? ==>
            PairSpec(listing, colours, table, project).error ==
              (if Decimal.ParseInt(SplitExtRoot(name)).None? then BadStem(name) else Lookup(NoTransformations)))
  {
  }

  /** The loop raises exactly when some name fails. */
  lemma {:induction false} PairFailsIff(listing: seq<string>, colours: set<string>, table: Table,
                                        project: (string, string) -> seq<Point>)
    requires Valid(table)
    ensures PairSpec(listing, colours, table, project).Err? <==>
      exists i | 0 <= i < |listing| :: Fails(listing[i], colours, table)
    decreases |listing|
  {
    if listing != [] {
      var last := |listing| - 1;
      var prefix := listing[..last];
      assert forall i | 0 <= i < last :: prefix[i] == listing[i];
      PairFailsIff(prefix, colours, table, project);
      if PairSpec(prefix, colours, table, project).Err? {
        PairAbortPersists(listing, last, colours, table, project);
      } else {
        PairStep(listing, colours, table, project);
      }
    }
  }

  /** The error the loop raises for a name that fails. */
  function FailureOf(name: string): FrameError {
    if Decimal.ParseInt(SplitExtRoot(name)).None? then BadStem(name) else Lookup(NoTransformations)
  }

  /** Name `i` is the first of the listing that fails. */
  predicate FirstFailsAt(listing: seq<string>, colours: set<string>, table: Table, i: nat) {
    && i < |listing|
    && Fails(listing[i], colours, table)
    && forall h | 0 <= h < i :: !Fails(listing[h], colours, table)
  }

  /** Appending a name keeps the first failure of the prefix. */
  lemma FirstFailsAtExtends(listing: seq<string>, colours: set<string>, table: Table, i: nat)
    requires listing != [] && FirstFailsAt(listing[..|listing| - 1], colours, table, i)
    ensures FirstFailsAt(listing, colours, table, i)
  {
    var prefix := listing[..|listing| - 1];
    assert listing[i] == prefix[i];
    assert forall h | 0 <= h < i :: prefix[h] == listing[h];
  }

  /** When the loop raises, it is for the first name that fails. */
  lemma {:induction false} PairFirstFailure(listing: seq<string>, colours: set<string>, table: Table,
                                            project: (string, string) -> seq<Point>)
    requires Valid(table)
    requires PairSpec(listing, colours, table, project).Err?
    ensures exists i | 0 <= i < |listing| ::
      FirstFailsAt(listing, colours, table, i) &&
      PairSpec(listing, colours, table, project).error == FailureOf(listing[i])
    decreases |listing|
  {
    var last := |listing| - 1;
    var prefix := listing[..last];
    if PairSpec(prefix, colours, table, project).Err? {
      PairFirstFailure(prefix, colours, table, project);
      PairAbortPersists(listing, last, colours, table, project);
      var i :| 0 <= i < last && FirstFailsAt(prefix, colours, table, i)
        && PairSpec(prefix, colours, table, project).error == FailureOf(prefix[i]);
      FirstFailsAtExtends(listing, colours, table, i);
      assert listing[i] == prefix[i];
    } else {
      PairStep(listing, colours, table, project);
      PairFailsIff(prefix, colours, table, project);
      assert forall h | 0 <= h < last :: prefix[h] == listing[h];
      assert FirstFailsAt(listing, colours, table, last);
    }
  }

  /** The loop raises exactly when some name fails, and then for the first such name. */
  lemma PairErrors(listing: seq<string>, colours: set<string>, table: Table,
                   project: (string, string) -> seq<Point>)
    requires Valid(table)
    ensures PairSpec(listing, colours, table, project).Err? <==>
      exists i | 0 <= i < |listing| :: Fails(listing[i], colours, table)
    ensures PairSpec(listing, colours, table, project).Err? ==>
      exists i | 0 <= i < |listing| ::
        && Fails(listing[i], colours, table)
        && (forall h | 0 <= h < i :: !Fails(listing[h], colours, table))
        && PairSpec(listing, colours, table, project).error ==
             (if Decimal.ParseInt(SplitExtRoot(listing[i])).None? then BadStem(listing[i])
              else Lookup(NoTransformations))
  {
    PairFailsIff(listing, colours, table, project);
    if PairSpec(listing, colours, table, project).Err? {
      PairFirstFailure(listing, colours, table, project);
    }
  }

  /** "007.png" is paired with "7.jpg": the partner is built from the integer, not the text. */
  lemma LeadingZerosDropped()
    ensures SplitExtRoot("007.png") == "007"
    ensures Decimal.ParseInt("007") == Some(7)
    ensures PartnerName(7) == "7.jpg"
  {
    RootOfPaddedName();
    PaddedStem();
    PartnerOfSeven();
  }

  lemma RootOfPaddedName()
    ensures SplitExtRoot("007.png") == "007"
  {
    var name := "007.png";
    assert name[3] == '.' && name[4] != '.' && name[5] != '.' && name[6] != '.';
    assert LastDot(name) == Some(3);
    assert name[0] != '.';
    assert name[..3] == "007";
  }

  lemma PaddedStem()
    ensures Decimal.ParseInt("007") == Some(7)
  {
    var stem := "007";
    Decimal.TrimKeepsEnds(stem);
    assert Decimal.IsDigitGroups(stem);
    assert stem[..2] == "00" && stem[..2][..1] == "0" && "0"[..0] == [];
    assert Decimal.DigitsValue(stem) == 7;
  }

  lemma PartnerOfSeven()
    ensures PartnerName(7) == "7.jpg"
  {
    assert Decimal.DigitChar(7) == '7';
    assert Decimal.FormatInt(7) == "7";
  }

  // ---------------------------------------------------------------- accumulation

  /** The clouds joined in order. */
  function Concat(clouds: seq<seq<Point>>): seq<Point>
    decreases |clouds|
  {
    if clouds == [] then [] else Concat(clouds[..|clouds| - 1]) + clouds[|clouds| - 1]
  }

  function TotalSize(clouds: seq<seq<Point>>): nat
    decreases |clouds|
  {
    if clouds == [] then 0 else TotalSize(clouds[..|clouds| - 1]) + |clouds[|clouds| - 1]|
  }

  /** Why nothing is written. */
  datatype CombineError = NothingCombined  // `combined_pcd` is never bound, so line 92 raises NameError

  /** Lines 83-92: the first cloud, with each later cloud added to it in order. */
  method Combine(clouds: seq<seq<Point>>) returns (r: Result<seq<Point>, CombineError>)
    ensures r.Err? <==> |clouds| == 0
    ensures r.Ok? ==> r.value == Concat(clouds)
  {
    if |clouds| == 0 {
      return Err(NothingCombined);
    }
    var combined := clouds[0];
    assert clouds[..1][..0] == [];
    for i := 1 to |clouds|
      invariant combined == Concat(clouds[..i])
    {
      assert clouds[..i + 1][..i] == clouds[..i];
      combined := combined + clouds[i];
    }
    assert clouds[..|clouds|] == clouds;
    return Ok(combined);
  }

  /** The combined cloud holds as many points as all the clouds together. */
  lemma {:induction false} ConcatSize(clouds: seq<seq<Point>>)
    ensures |Concat(clouds)| == TotalSize(clouds)
    decreases |clouds|
  {
    if clouds != [] {
      ConcatSize(clouds[..|clouds| - 1]);
    }
  }

  /** Point k of cloud i sits in the combined cloud, unchanged, right after the points
      of the clouds before it. */
  lemma {:induction false} ConcatLayout(clouds: seq<seq<Point>>, i: nat, k: nat)
    requires i < |clouds| && k < |clouds[i]|
    ensures TotalSize(clouds[..i]) + k < |Concat(clouds)|
    ensures Concat(clouds)[TotalSize(clouds[..i]) + k] == clouds[i][k]
    decreases |clouds|
  {
    var last := |clouds| - 1;
    var prefix := clouds[..last];
    assert Concat(clouds) == Concat(prefix) + clouds[last];
    ConcatSize(prefix);
    if i < last {
      ConcatLayout(prefix, i, k);
      assert clouds[..i] == prefix[..i];
    } else {
      assert clouds[..i] == prefix;
    }
  }

  // ---------------------------------------------------------------- order of the frames

  /** The cloud a name contributes: the frame moved by the transform nearest to its
      epoch when the name is paired and a transform is found, and nothing otherwise. */
  function NameCloud(name: string, colours: set<string>, table: Table,
                     project: (string, string) -> seq<Point>): seq<Point>
    requires Valid(table)
  {
    if !Paired(name, colours) then []
    else
      var epoch := Decimal.ParseInt(SplitExtRoot(name)).value;
      match FindClosest(epoch, table)
      case Err(_) => []
      case Ok(m) => TransformCloud(m, project(name, PartnerName(epoch)))
  }

  /** The union of f over the elements of xs. */
  function Bag<T, U>(xs: seq<T>, f: T -> multiset<U>): multiset<U>
    decreases |xs|
  {
    if xs == [] then multiset{} else Bag(xs[..|xs| - 1], f) + f(xs[|xs| - 1])
  }

  lemma {:induction false} BagAppend<T, U>(xs: seq<T>, ys: seq<T>, f: T -> multiset<U>)
    ensures Bag(xs + ys, f) == Bag(xs, f) + Bag(ys, f)
    decreases |ys|
  {
    if ys == [] {
      assert xs + ys == xs;
    } else {
      var last := |ys| - 1;
      assert (xs + ys)[..|xs + ys| - 1] == xs + ys[..last];
      assert (xs + ys)[|xs + ys| - 1] == ys[last];
      BagAppend(xs, ys[..last], f);
    }
  }

  /** Taking element j out of ys takes its part out of the union. */
  lemma BagRemove<T, U>(ys: seq<T>, j: nat, f: T -> multiset<U>)
    requires j < |ys|
    ensures Bag(ys, f) == Bag(ys[..j] + ys[j + 1..], f) + f(ys[j])
  {
    var front, y, back := ys[..j], ys[j], ys[j + 1..];
    assert ys == (front + [y]) + back;
    BagAppend(front + [y], back, f);
    BagAppend(front, [y], f);
    BagAppend(front, back, f);
    assert Bag([y], f) == f(y) by {
      assert [y][..0] == [];
    }
    UnionSwap(Bag(front, f), f(y), Bag(back, f));
  }

  lemma UnionSwap<U>(a: multiset<U>, b: multiset<U>, c: multiset<U>)
    ensures (a + b) + c == (a + c) + b
  {
  }

  /** Taking element j out of ys takes one copy of it out of the multiset. */
  lemma MultisetRemove<T>(ys: seq<T>, j: nat)
    requires j < |ys|
    ensures multiset(ys[..j] + ys[j + 1..]) == multiset(ys) - multiset{ys[j]}
  {
    assert ys == ys[..j] + [ys[j]] + ys[j + 1..];
  }

  /** The union does not depend on the order of the elements. */
  lemma {:induction false} BagPermutation<T, U>(xs: seq<T>, ys: seq<T>, f: T -> multiset<U>)
    requires multiset(xs) == multiset(ys)
    ensures Bag(xs, f) == Bag(ys, f)
    decreases |xs|
  {
    if xs == [] {
      assert |multiset(ys)| == 0;
    } else {
      var last := |xs| - 1;
      var x := xs[last];
      assert x in multiset(ys);
      var j :| 0 <= j < |ys| && ys[j] == x;
      MultisetRemove(xs, last);
      MultisetRemove(ys, j);
      assert xs[..last] + xs[last + 1..] == xs[..last];
      BagPermutation(xs[..last], ys[..j] + ys[j + 1..], f);
      BagRemove(ys, j, f);
    }
  }

  /** A further cloud joins at the end. */
  lemma ConcatAppend(clouds: seq<seq<Point>>, c: seq<Point>)
    ensures Concat(clouds + [c]) == Concat(clouds) + c
  {
    assert (clouds + [c])[..|clouds|] == clouds;
  }

  /** When the loop goes through, its clouds hold together exactly the clouds of the
      names, taken one name at a time. */
  lemma {:induction false} PairedPoints(listing: seq<string>, colours: set<string>, table: Table,
                                        project: (string, string) -> seq<Point>)
    requires Valid(table)
    requires PairSpec(listing, colours, table, project).Ok?
    ensures multiset(Concat(PairSpec(listing, colours, table, project).value))
         == Bag(listing, n => multiset(NameCloud(n, colours, table, project)))
    decreases |listing|
  {
    if listing != [] {
      var last := |listing| - 1;
      var prefix := listing[..last];
      PairedPoints(prefix, colours, table, project);
      var clouds := PairSpec(prefix, colours, table, project).value;
      var name := listing[last];
      if Paired(name, colours) {
        var epoch := Decimal.ParseInt(SplitExtRoot(name)).value;
        ConcatAppend(clouds, TransformCloud(FindClosest(epoch, table).value, project(name, PartnerName(epoch))));
      }
    }
  }

  /** The loop produces no cloud exactly when no name of the listing is paired. */
  lemma NoCloudIff(listing: seq<string>, colours: set<string>, table: Table,
                   project: (string, string) -> seq<Point>)
    requires Valid(table)
    requires PairSpec(listing, colours, table, project).Ok?
    ensures |PairSpec(listing, colours, table, project).value| == 0 <==>
      forall n | n in listing :: !Paired(n, colours)
  {
    PairedClouds(listing, colours, table, project);
    PairedNamesComplete(listing, colours);
    var names := PairedNames(listing, colours);
    if |names| > 0 {
      assert names[0] in listing && Paired(names[0], colours);
    }
  }

  /** The fused cloud does not depend on the order in which the directory lists the
      depth frames: any reordering of the listing succeeds or fails in the same way and
      gives the same points, with the same multiplicities, possibly in another order. */
  lemma FuseOrderIndependent(rows: seq<seq<real>>, listing: seq<string>, reordered: seq<string>,
                             colours: set<string>, project: (string, string) -> seq<Point>)
    requires multiset(listing) == multiset(reordered)
    ensures var r, q := FuseSpec(rows, listing, colours, project), FuseSpec(rows, reordered, colours, project);
      && (r.Ok? <==> q.Ok?)
      && (r.Ok? ==> multiset(r.value) == multiset(q.value))
      && (r.Err? && r.error.FramesFailed? <==> q.Err? && q.error.FramesFailed?)
      && (r.Err? && !r.error.FramesFailed? ==> r == q)
  {
    assert forall n :: n in listing <==> n in multiset(listing);
    assert forall n :: n in reordered <==> n in multiset(reordered);
    if TableOf(rows).Ok? {
      var table := TableOf(rows).value;
      PairFailsIff(listing, colours, table, project);
      PairFailsIff(reordered, colours, table, project);
      if !PairSpec(listing, colours, table, project).Err? {
        assert forall i | 0 <= i < |listing| :: !Fails(listing[i], colours, table);
        assert forall i | 0 <= i < |reordered| :: reordered[i] in listing;
        NoCloudIff(listing, colours, table, project);
        NoCloudIff(reordered, colours, table, project);
        PairedPoints(listing, colours, table, project);
        PairedPoints(reordered, colours, table, project);
        BagPermutation(listing, reordered, n => multiset(NameCloud(n, colours, table, project)));
      } else {
        var i :| 0 <= i < |listing| && Fails(listing[i], colours, table);
        assert listing[i] in reordered;
      }
    }
  }

  /** The two-frame case: fusing [a, b] and [b, a] gives the same points. */
  lemma FuseSwap(rows: seq<seq<real>>, a: string, b: string, colours: set<string>,
                 project: (string, string) -> seq<Point>)
    requires FuseSpec(rows, [a, b], colours, project).Ok?
    ensures FuseSpec(rows, [b, a], colours, project).Ok?
    ensures multiset(FuseSpec(rows, [a, b], colours, project).value)
         == multiset(FuseSpec(rows, [b, a], colours, project).value)
  {
    assert multiset([a, b]) == multiset([b, a]);
    FuseOrderIndependent(rows, [a, b], [b, a], colours, project);
  }

  // ---------------------------------------------------------------- the whole script

  datatype ScriptError =
    | TableFailed(t: TableError)
    | FramesFailed(f: FrameError)
    | NoCloud(c: CombineError)

  /** The script from the loaded CSV rows to the cloud it writes. */
  function FuseSpec(rows: seq<seq<real>>, listing: seq<string>, colours: set<string>,
                    project: (string, string) -> seq<Point>): Result<seq<Point>, ScriptError>
  {
    match TableOf(rows)
    case Err(e) => Err(TableFailed(e))
    case Ok(table) =>
      match PairSpec(listing, colours, table, project)
      case Err(e) => Err(FramesFailed(e))
      case Ok(clouds) => if |clouds| == 0 then Err(NoCloud(NothingCombined)) else Ok(Concat(clouds))
  }

  method FuseFrames(rows: seq<seq<real>>, listing: seq<string>, colours: set<string>,
                    project: (string, string) -> seq<Point>) returns (r: Result<seq<Point>, ScriptError>)
    ensures r == FuseSpec(rows, listing, colours, project)
  {
    var table := BuildTable(rows);
    if table.Err? {
      return Err(TableFailed(table.error));
    }
    var clouds := PairFrames(listing, colours, table.value, project);
    if clouds.Err? {
      return Err(FramesFailed(clouds.error));
    }
    var combined := Combine(clouds.value);
    if combined.Err? {
      return Err(NoCloud(NothingCombined));
    }
    return Ok(combined.value);
  }
}

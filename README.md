# IntelRealSense-With-RSI, modelled in Dafny

The repository is a five-script pipeline. It records RGB-D frames from an Intel
RealSense camera and logs a KUKA robot's pose over RSI. It then turns the pose log
into transforms relative to the first pose, and fuses the frames into one point
cloud with the transform whose timestamp is nearest.

This project models the deterministic core of each script and the files that pass
between them:

- `PoseTransforms` (`2_process_rsi_to_transformations.py`):
  - `euler_to_matrix` is modelled with sine and cosine given as a unit pair per angle.
  - `convert_to_epoch` is modelled with its chain of fallbacks.
  - The `process_csv` loop has row 0 as its reference. It skips a row whose pose fails and aborts on a bad timestamp.
  - The output table is the header "0..16" followed by one line per entry.
- `FramesToCloud` (`4_process_frames_to_ply.py`):
  - the transform dictionary, where a repeated key keeps its first position and its last matrix;
  - `find_closest_transformation`, where the first inserted key wins a tie;
  - the pairing of `<epoch>.png` with `<epoch>.jpg`;
  - the concatenation of the clouds;
  - the failure on an empty result, because `combined_pcd` is never bound.
- `CheckTransforms` (`3_check_transformations.py`):
  - `read_csv`, which does not skip the header;
  - `transform_vector`;
  - the translation part of `calculate_xyzabc`;
  - `max_extent`.
- `Recorder` (`1_friendly_realsense_recorder.py`):
  - the `Preset` values and the preset prompt, where `capitalize()` makes HighDensity and MediumDensity unreachable;
  - the intrinsics record;
  - the frame file names;
  - the grey background mask;
  - the capture loop, which ends at the escape key.
- `RsiLogger` (`1_rsi_data_udp_txt_csv_tstamp_dsktop.py`):
  - the 34 `fieldnames`;
  - the row built from a parsed message, with its defaults;
  - the order in which missing elements raise;
  - the receive loop, which skips malformed XML and ends on a missing element.
- `Handoffs`:
  - The logger writes the columns the transform script needs.
  - The checker reads the transform script's file back, its header included.
  - The fuser loads that file into a table in which each entry is found exactly.
  - A one-row pose log produces a file the fuser cannot load.

The shared modules are:

- `Matrices`: 3x3 and 4x4 matrices as datatypes, the determinant, rigid transforms (homogeneous, with an orthonormal block of determinant +1), their inverse, flatten and reshape.
- `Decimal`: Python's `int()` on text, `str()` of an integer, and `int()` of a float.
- `CsvFields`: a CSV field by what it denotes.
- `Wrappers`: `Option` and `Result`.

Three behaviours of the code are easy to miss; the model follows the code each time:

- An empty pose table produces no output. `df.iloc[0]` raises at line 76 and the error is caught at line 106; it does not produce an empty stream.
- The reference pose is strictly row 0. If row 0's pose fails, the run stops at lines 80-82; the first row that succeeds is not used instead.
- A transform file with exactly one entry cannot be loaded by the fuser. `np.genfromtxt` returns a flat array, so each `row` of the loop is a single `np.float64`, and indexing it with `row[0]` raises IndexError.

Sine and cosine cannot be computed exactly, so an angle cell is given as its (cos, sin) pair with cos² + sin² = 1. `strptime` and the local-time conversion are the two parameters of `DateParsers`. The XML parser, the clock, the directory listings and Open3D's projection of an image pair into a cloud are also parameters.

## Model

| member | source | states |
|---|---|---|
| PoseTransforms.RotationClosedForm | 2_process_rsi_to_transformations.py:15-28 | Rz·Ry·Rx has, entry by entry, the closed form of the three axis rotations written at lines 15-25 |
| PoseTransforms.RotationOrthonormal | 2_process_rsi_to_transformations.py:15-28 | the combined rotation of three unit angles is orthonormal |
| PoseTransforms.DetRotation | 2_process_rsi_to_transformations.py:15-28 | the combined rotation of three unit angles has determinant +1: it turns space without mirroring it |
| PoseTransforms.EulerToMatrix | 2_process_rsi_to_transformations.py:7-38 | the result is None exactly when a cell makes the arithmetic raise; otherwise the matrix is rigid (its block is orthonormal with determinant +1), its bottom row is [0,0,0,1], its translation is (x, y, z) and its rotation block is Rz·Ry·Rx |
| PoseTransforms.EulerOfNumbers | 2_process_rsi_to_transformations.py:31-35 | numeric cells give the rotation and the translation assembled into one homogeneous matrix |
| PoseTransforms.ZeroRotationIsIdentity | 2_process_rsi_to_transformations.py:15-28 | with every angle zero (cos 1, sin 0) the rotation is the identity |
| PoseTransforms.ZeroAnglesArePureTranslation | 2_process_rsi_to_transformations.py:31-33 | zero angles give a pure translation by (x, y, z) |
| PoseTransforms.ZeroPoseIsIdentity | 2_process_rsi_to_transformations.py:31-35 | the zero pose gives the 4x4 identity |
| PoseTransforms.EpochMillis | 2_process_rsi_to_transformations.py:50 | `int(seconds * 1000)` truncates: for a non-negative time it is the largest integer not above it |
| PoseTransforms.ConvertToEpoch | 2_process_rsi_to_transformations.py:40-51 | an integer cell is returned unchanged; a float cell is truncated toward zero: the floor for a non-negative value and the ceiling for a negative one, each with both bounds |
| PoseTransforms.IntegerTextUnchanged | 2_process_rsi_to_transformations.py:42-43 | the text of an integer converts to that integer, whatever the date parsers do |
| PoseTransforms.DateFallbacks | 2_process_rsi_to_transformations.py:44-50 | for text that is not an integer, the fractional format is tried first and then the plain one; the error escapes exactly when neither matches |
| PoseTransforms.ConvertErrors | 2_process_rsi_to_transformations.py:40-51 | conversion raises exactly for NaN, infinity, and text that is neither an integer nor a date of either format |
| PoseTransforms.PoseOf | 2_process_rsi_to_transformations.py:77-78 | a pose that converts is a rigid transform |
| PoseTransforms.Entry | 2_process_rsi_to_transformations.py:101-104 | an entry holds 16 matrix values after its timestamp |
| PoseTransforms.ProcessCsv | 2_process_rsi_to_transformations.py:65-108 | the loop returns exactly what the functional specification `Process` gives |
| PoseTransforms.AbortPersists | 2_process_rsi_to_transformations.py:84-108 | once a row has aborted the loop, later rows do not change the outcome |
| PoseTransforms.EmitRowsOutcome | 2_process_rsi_to_transformations.py:84-108 | the loop completes exactly when every timestamp converts; otherwise it reports the first row whose timestamp raises, with the cause |
| PoseTransforms.KeptIndices | 2_process_rsi_to_transformations.py:95-99 | the rows whose pose converts, increasing, and all of them |
| PoseTransforms.EmitRowsEntries | 2_process_rsi_to_transformations.py:84-104 | a completed loop gives one entry per row whose pose converts, in input order, with that row's epoch time and inv(T0)·Ti flattened |
| PoseTransforms.ProcessOkIff | 2_process_rsi_to_transformations.py:65-108 | a table is produced exactly when the required columns are present, row 0 exists with a pose that converts, and every timestamp converts |
| PoseTransforms.FirstEntryIsIdentity | 2_process_rsi_to_transformations.py:76-104 | the first entry belongs to row 0 and is the identity |
| PoseTransforms.EntriesAreRigid | 2_process_rsi_to_transformations.py:101-104 | every emitted entry reshapes to a rigid transform: bottom row [0,0,0,1], and a block that is orthonormal with determinant +1 |
| PoseTransforms.EmitAppend | 2_process_rsi_to_transformations.py:84-104 | a row that converts appends exactly its entry |
| PoseTransforms.ProcessTwoRows | 2_process_rsi_to_transformations.py:76-104 | two good rows give the entries of T0⁻¹T0 and T0⁻¹T1 |
| PoseTransforms.TwoPoseScenario | 2_process_rsi_to_transformations.py:76-104 | the origin followed by a 1-unit shift along X gives the identity and then that shift |
| PoseTransforms.OutputHeader | 2_process_rsi_to_transformations.py:120-122 | pandas' header for 17 unnamed columns is the integers 0..16 |
| PoseTransforms.OutputLine | 2_process_rsi_to_transformations.py:104-122 | a data line is the timestamp as an integer, then the values as floats |
| PoseTransforms.OutputTable | 2_process_rsi_to_transformations.py:120-122 | the header line, then one line per entry in order |
| Matrices.RigidInverseIsInverse | 2_process_rsi_to_transformations.py:101 | definition: `RigidInverse` (line 101) is the closed form (Rᵀ, −Rᵀt) that `np.linalg.inv` computes for such a transform; for a rigid transform, and for any homogeneous transform with an orthonormal block, (Rᵀ, −Rᵀt) times the transform is the identity |
| Matrices.RelativeIsRigid | 2_process_rsi_to_transformations.py:101 | inv(T0)·Ti of two rigid transforms is rigid: its block is orthonormal with determinant +1 |
| Matrices.DetOfProduct | 2_process_rsi_to_transformations.py:28 | the determinant of a product is the product of the determinants |
| Matrices.DetOfTranspose | 2_process_rsi_to_transformations.py:101 | transposing keeps the determinant, so the inverse rotation Rᵀ keeps determinant +1 |
| Matrices.RelativeToIdentity | 2_process_rsi_to_transformations.py:101 | against the identity as reference, the relative transform is the pose itself |
| Matrices.OrthonormalProduct | 2_process_rsi_to_transformations.py:28 | a product of orthonormal matrices is orthonormal |
| Matrices.Flatten | 2_process_rsi_to_transformations.py:104 | `flatten()` gives 16 values |
| Matrices.FlattenIsRowMajor | 2_process_rsi_to_transformations.py:104 | entry (i, j) lands at position 4i + j |
| Matrices.ReshapeIsRowMajor | 3_check_transformations.py:19 | position 4i + j becomes entry (i, j) |
| Matrices.ReshapeFlatten | 3_check_transformations.py:19 | reshaping a flattened matrix gives it back |
| Matrices.FlattenReshape | 4_process_frames_to_ply.py:24 | flattening a reshaped row gives the 16 values back |
| FramesToCloud.Put | 4_process_frames_to_ply.py:25 | dict assignment: the entry is replaced, and a key already present keeps its position |
| FramesToCloud.Insert | 4_process_frames_to_ply.py:22-25 | the table after the loop is a well-formed dict |
| FramesToCloud.BuildTable | 4_process_frames_to_ply.py:20-25 | the loop returns the functional table `TableOf`, including the single-row and wrong-width errors |
| FramesToCloud.InsertKeys | 4_process_frames_to_ply.py:22-25 | definition: `KeyOf` (line 23) is `int(row[0])`, truncating toward zero, and `MatrixOf` (line 24) is `row[1:].reshape(4, 4)`; the keys are exactly the rows' `int(row[0])` |
| FramesToCloud.LastRowWins | 4_process_frames_to_ply.py:22-25 | for a repeated timestamp, the last row's matrix is kept |
| FramesToCloud.KeysInFirstRowOrder | 4_process_frames_to_ply.py:22-25 | keys are ordered by their first row |
| FramesToCloud.ClosestIndex | 4_process_frames_to_ply.py:9 | definition: `Distance` (line 9) is `abs(k - t)`; `min` with a key picks a least-distance key and is the first such |
| FramesToCloud.FindClosest | 4_process_frames_to_ply.py:8-10 | an empty table is an error; otherwise the result is the matrix of a key at least distance from t |
| FramesToCloud.ExactKeyFound | 4_process_frames_to_ply.py:8-10 | a time that is a key gets its own matrix |
| FramesToCloud.FirstInsertedWinsTie | 4_process_frames_to_ply.py:9 | of two equally close keys, the later inserted one is never chosen |
| FramesToCloud.NearestOfTwo | 4_process_frames_to_ply.py:8-10 | against keys 0 and 100, time 95 gets the matrix at 100 |
| FramesToCloud.TransformCloudIdentity | 4_process_frames_to_ply.py:77 | definition: `TransformCloud` (line 77) moves each point's position by `TransformVector` and keeps its colour and the order of the points; `pcd.transform` by the identity leaves the cloud unchanged |
| FramesToCloud.TransformCloudCompose | 4_process_frames_to_ply.py:77 | transforming by a product of homogeneous matrices is transforming by the right factor and then by the left one |
| FramesToCloud.TransformCloudKeepsDistances | 4_process_frames_to_ply.py:77 | a rigid transform, and any homogeneous transform with an orthonormal block, keeps the distance between every two points of the cloud |
| FramesToCloud.LastDot | 4_process_frames_to_ply.py:46 | the position of the last '.' of a name, if any |
| FramesToCloud.SplitExtRoot | 4_process_frames_to_ply.py:46 | `splitext(name)[0]` is a prefix of the name |
| FramesToCloud.SplitExtRootOfExtension | 4_process_frames_to_ply.py:46 | `splitext(s + "." + e)[0] == s` when e has no dot and s has a character other than a dot |
| FramesToCloud.PairFrames | 4_process_frames_to_ply.py:43-80 | the loop returns exactly the functional specification `PairSpec` |
| FramesToCloud.PairAbortPersists | 4_process_frames_to_ply.py:43-80 | once a name has raised, later names do not change the outcome |
| FramesToCloud.PairedNames | 4_process_frames_to_ply.py:43-53 | definition: `PartnerName` (line 50) is `f"{epoch}.jpg"`, the decimal text of the integer stem; the names kept are `.png` names with an integer stem whose `<epoch>.jpg` exists |
| FramesToCloud.PairedNamesComplete | 4_process_frames_to_ply.py:43-53 | every name kept is in the listing, and every name of the listing that gets paired is kept |
| FramesToCloud.PairedClouds | 4_process_frames_to_ply.py:43-80 | one cloud per paired name, in listing order, moved by the nearest transform |
| FramesToCloud.PairStep | 4_process_frames_to_ply.py:43-80 | after a prefix that went through, the next name raises exactly when it fails, with its error |
| FramesToCloud.PairFailsIff | 4_process_frames_to_ply.py:43-80 | the loop raises exactly when some name of the listing fails |
| FramesToCloud.PairFirstFailure | 4_process_frames_to_ply.py:43-80 | when the loop raises, it is with the error of the first name that fails |
| FramesToCloud.PairErrors | 4_process_frames_to_ply.py:43-80 | the loop raises exactly when some name fails: a `.png` with a stem that is not an integer, or a paired name when the table is empty; the error is that of the first such name |
| FramesToCloud.LeadingZerosDropped | 4_process_frames_to_ply.py:46-50 | "007.png" has stem "007", which reads as 7, and pairs with "7.jpg" |
| FramesToCloud.Combine | 4_process_frames_to_ply.py:83-86 | no clouds is the unbound-variable error; otherwise the clouds are concatenated in order |
| FramesToCloud.ConcatSize | 4_process_frames_to_ply.py:83-86 | the combined size is the sum of the sizes |
| FramesToCloud.ConcatLayout | 4_process_frames_to_ply.py:83-86 | point k of cloud i sits after all the points of clouds 0..i-1 |
| FramesToCloud.FuseFrames | 4_process_frames_to_ply.py:20-92 | the script returns the functional specification `FuseSpec`: table, then pairing, then combining, each with its error; `FuseOrderIndependent` shows the order of the depth listing does not matter |
| FramesToCloud.PairedPoints | 4_process_frames_to_ply.py:43-86 | the points of the paired clouds are, as a multiset, the union over the listing of each name's own cloud (empty for a name that does not pair) |
| FramesToCloud.BagPermutation | 4_process_frames_to_ply.py:43-86 | a union of per-name multisets depends only on the multiset of names, not their order |
| FramesToCloud.NoCloudIff | 4_process_frames_to_ply.py:43-92 | the loop collects no cloud exactly when no name of the listing pairs; that is the case in which line 92 finds `combined_pcd` unbound |
| FramesToCloud.FuseOrderIndependent | 4_process_frames_to_ply.py:20-92 | any reordering of the depth listing gives the same outcome: both succeed or neither; on success the fused points are equal as a multiset; a frame error stays a frame error (possibly of another name); and any other error is the same error |
| FramesToCloud.FuseSwap | 4_process_frames_to_ply.py:20-92 | fusing frames [A, B] and [B, A]: if one succeeds so does the other, with the same multiset of points |
| CheckTransforms.ReadNumbers | 3_check_transformations.py:19 | `np.array(fields, dtype=float)` succeeds exactly when every field is a finite number, and keeps each value |
| CheckTransforms.ParseLine | 3_check_transformations.py:18-19 | a line is read exactly when it has 17 fields, an integer first and numbers after; the timestamp is the first field and the matrix flattens to the rest |
| CheckTransforms.ParseLineErrors | 3_check_transformations.py:18-19 | a rejected line fails on the first of the checks Python makes, in that order |
| CheckTransforms.ReadCsv | 3_check_transformations.py:12-22 | the two lists have one entry per line, in order, paired line by line; the first line that cannot be read gives the error |
| CheckTransforms.IdentityKeepsVector | 3_check_transformations.py:25-29 | definition: `TransformVector` (lines 25-29) is R·v + t, the first three entries of m·[v, 1]; the identity maps v to v |
| CheckTransforms.TranslationAdds | 3_check_transformations.py:25-29 | a pure translation adds t |
| CheckTransforms.ComposedTransform | 3_check_transformations.py:25-29 | applying a product applies the right factor first |
| CheckTransforms.RigidKeepsLengths | 3_check_transformations.py:25-29 | a rigid transform, and any homogeneous transform with an orthonormal block, keeps distances |
| CheckTransforms.XyzOf | 3_check_transformations.py:32-37 | the first three values of `calculate_xyzabc` are where the transform sends the origin |
| CheckTransforms.MaxExtent | 3_check_transformations.py:84-86 | defined exactly for a non-empty list; at least every absolute translation component, and equal to one of them |
| CsvFields.ToInt | 3_check_transformations.py:18 | `int()` of a field succeeds exactly on integer text |
| CsvFields.ToIntReadsText | 3_check_transformations.py:18 | it agrees with `int()` applied to the decimal text of the integer |
| Decimal.ParseFormatInt | 4_process_frames_to_ply.py:46 | `int(str(n)) == n` for every integer |
| Decimal.TrimKeepsEnds | 2_process_rsi_to_transformations.py:43 | the whitespace stripping of `int()` leaves text that neither starts nor ends with whitespace unchanged |
| Decimal.TrimLeftStrips | 2_process_rsi_to_transformations.py:43 | `int()` drops exactly the leading whitespace: what is dropped is whitespace, and what is left does not start with it |
| Decimal.TrimRightStrips | 2_process_rsi_to_transformations.py:43 | `int()` drops exactly the trailing whitespace: what is dropped is whitespace, and what is left does not end with it |
| Decimal.TruncateToInt | 1_friendly_realsense_recorder.py:204 | `int(x)` of a float truncates toward zero |
| Recorder.Value | 1_friendly_realsense_recorder.py:32-38 | each preset's value is its position among Custom..MediumDensity |
| Recorder.PresetOptions | 1_friendly_realsense_recorder.py:148 | every preset's name maps to its value, and nothing else is a key |
| Recorder.Capitalize | 1_friendly_realsense_recorder.py:157 | `capitalize()` upper-cases the first character and lower-cases the rest |
| Recorder.CapitalizeHits | 1_friendly_realsense_recorder.py:157 | a capitalised key is hit exactly by the answers that equal it ignoring case |
| Recorder.CapitalizeMisses | 1_friendly_realsense_recorder.py:157 | no answer capitalises to a name with an upper-case letter after the first |
| Recorder.SelectPreset | 1_friendly_realsense_recorder.py:155-157 | the selected value is one of the presets' values, or HighAccuracy |
| Recorder.EmptyAnswerSelectsDefault | 1_friendly_realsense_recorder.py:155-157 | an empty answer selects Default, whose value is 1 |
| Recorder.SelectPresetChoice | 1_friendly_realsense_recorder.py:155-157 | any casing of custom, default or hand selects that preset, and every other answer selects HighAccuracy, so HighDensity and MediumDensity are never selected |
| Recorder.HighDensityFallsBack | 1_friendly_realsense_recorder.py:157 | typing "HighDensity" selects HighAccuracy |
| Recorder.SaveIntrinsic | 1_friendly_realsense_recorder.py:51-71 | the record has the fixed formats RGB8 and Z16, the stream's width and height, and the given scale, fps, length and device |
| Recorder.PinholeRoundTrip | 1_friendly_realsense_recorder.py:63-67 | reading indices 0, 4, 6 and 7 of the saved matrix, as the fuser does, gives back fx, fy, ppx and ppy |
| Recorder.RecordHoldsCameraMatrix | 1_friendly_realsense_recorder.py:63-67 | read column-major, the nine values are the camera matrix |
| Recorder.StreamLength | 1_friendly_realsense_recorder.py:245-246 | the stream length is the elapsed time in microseconds, truncated |
| Recorder.StemOfFrameName | 1_friendly_realsense_recorder.py:204-209 | the stem of "<ts>.png" is "<ts>" |
| Recorder.FrameNamesPair | 1_friendly_realsense_recorder.py:204-209 | definition: `FrameNumber` (line 204) is `int(timestamp)`, and `DepthName` and `ColourName` (lines 208-209) are its decimal text followed by ".png" and ".jpg"; a depth name is a `.png` whose stem reads back as the frame number, and its partner is the colour name |
| Recorder.BackgroundMask | 1_friendly_realsense_recorder.py:217-223 | same shape as the colour image; a pixel is grey 153 exactly where the depth is beyond the clip or nearer than the minimum |
| Recorder.KeptBetweenThresholds | 1_friendly_realsense_recorder.py:221-223 | a pixel that is not grey is kept exactly when its depth is within both thresholds, the thresholds themselves included |
| Recorder.MaskIdempotent | 1_friendly_realsense_recorder.py:221-223 | masking twice is masking once |
| Recorder.RecordFrames | 1_friendly_realsense_recorder.py:183-213 | the loop writes the pairs of the functional specification `Recorded` and counts them |
| Recorder.RecordedPairs | 1_friendly_realsense_recorder.py:204-209 | every written depth name pairs in the fuser exactly when its colour name is present |
| Recorder.EscapeStops | 1_friendly_realsense_recorder.py:235-241 | nothing after the escape key is recorded |
| RsiLogger.Index | 1_rsi_data_udp_txt_csv_tstamp_dsktop.py:88-112 | every key of the row has a position among the 34 |
| RsiLogger.IndexOfColumnAt | 1_rsi_data_udp_txt_csv_tstamp_dsktop.py:33-37 | the key at a position has that position |
| RsiLogger.IndexInverse | 1_rsi_data_udp_txt_csv_tstamp_dsktop.py:33-37 | positions and keys correspond one to one |
| RsiLogger.KeySpelledAsFieldname | 1_rsi_data_udp_txt_csv_tstamp_dsktop.py:33-112 | the row spells each key as `fieldnames` does at the same position |
| RsiLogger.FirstMissing | 1_rsi_data_udp_txt_csv_tstamp_dsktop.py:57-102 | no access raises exactly when the message is complete; an error names an element that is missing, or an attribute missing from an element that is present |
| RsiLogger.BuildRow | 1_rsi_data_udp_txt_csv_tstamp_dsktop.py:56-112 | definition: `ValueOf` and `RowOf` (lines 88-112) are the dict literal, one value per key, read from the message's elements and attributes; a row is built exactly for a complete message; otherwise the error is that of the first access that raises |
| RsiLogger.TextsReadFirst | 1_rsi_data_udp_txt_csv_tstamp_dsktop.py:60-65 | a missing text element raises before any missing attribute |
| RsiLogger.RowHasFieldnames | 1_rsi_data_udp_txt_csv_tstamp_dsktop.py:33-112 | the row's keys are exactly the 34 field names |
| RsiLogger.TimestampFromClock | 1_rsi_data_udp_txt_csv_tstamp_dsktop.py:50-89 | the Timestamp column is the receiver's clock, not a value of the message |
| RsiLogger.PoseCopied | 1_rsi_data_udp_txt_csv_tstamp_dsktop.py:90-102 | RIst's X..C, RSol's X..C and Delay's D are copied verbatim |
| RsiLogger.TechDefaults | 1_rsi_data_udp_txt_csv_tstamp_dsktop.py:68-110 | each column C11..C110 is named after the attribute it reads; the attribute is copied, or "0.0" when missing |
| RsiLogger.StatusDefaults | 1_rsi_data_udp_txt_csv_tstamp_dsktop.py:81-111 | each column i1..i4 is named after the attribute it reads; the attribute is copied, or "0" when missing |
| RsiLogger.TextsCopied | 1_rsi_data_udp_txt_csv_tstamp_dsktop.py:60-108 | the six process values are the elements' texts |
| RsiLogger.WrittenLine | 1_rsi_data_udp_txt_csv_tstamp_dsktop.py:38-115 | definition: `Render` (line 115) is how `csv` writes a value: an integer as its decimal text, a string as itself, None as the empty field; `writerow` writes 34 values, each key's value at its position |
| RsiLogger.WrittenUnderItsName | 1_rsi_data_udp_txt_csv_tstamp_dsktop.py:38-115 | position k holds the key spelled as `fieldnames[k]` |
| RsiLogger.LineStartsWithClock | 1_rsi_data_udp_txt_csv_tstamp_dsktop.py:38-115 | the line written for a complete message has 34 fields and starts with the decimal text of the receiver's clock |
| RsiLogger.ReceiveData | 1_rsi_data_udp_txt_csv_tstamp_dsktop.py:38-119 | the loop writes the header and then exactly the lines of the functional specification `LogSpec`, and stops with its error |
| RsiLogger.LogStopPersists | 1_rsi_data_udp_txt_csv_tstamp_dsktop.py:43-119 | once a message lacks an element, later datagrams change nothing |
| RsiLogger.MalformedSkipped | 1_rsi_data_udp_txt_csv_tstamp_dsktop.py:117-119 | a datagram that does not parse writes nothing and does not stop the loop |
| RsiLogger.LinesPerDatagram | 1_rsi_data_udp_txt_csv_tstamp_dsktop.py:43-119 | definition: `ReceivedMillis` (line 50) is `int(time.time() * 1000)`, truncating the clock reading; if the loop is not stopped, it writes one 34-field line per parsed datagram, each starting with that datagram's clock |
| RsiLogger.ParsedIndices | 1_rsi_data_udp_txt_csv_tstamp_dsktop.py:53-54 | the datagrams listed parse, and they are listed in arrival order |
| RsiLogger.ParsedIndicesComplete | 1_rsi_data_udp_txt_csv_tstamp_dsktop.py:53-54 | every datagram that parses is listed |
| Handoffs.LoggerWritesRequiredColumns | 2_process_rsi_to_transformations.py:66-67 | the columns `process_csv` requires are the first seven of the logger's `fieldnames` |
| Handoffs.CheckerReadsHeaderAsTransform | 3_check_transformations.py:16-19 | `read_csv` reads the header "0..16" as a transform at time 0 with entries 1..16 |
| Handoffs.CheckerReadsLine | 3_check_transformations.py:18-19 | a written line reads back as its timestamp and its reshaped values |
| Handoffs.CheckerReadsProcessOutput | 3_check_transformations.py:12-22 | every line of a file `process_csv` wrote is read: the header as time 0, then each entry, rigid and in order |
| Handoffs.Genfromtxt | 4_process_frames_to_ply.py:20 | the lines after the header, each field as a float |
| Handoffs.Loaded | 4_process_frames_to_ply.py:20 | the rows loaded from a written file are each entry's timestamp followed by its 16 values |
| Handoffs.KeyIsTimestamp | 4_process_frames_to_ply.py:23 | `int(row[0])` gives the entry's timestamp back |
| Handoffs.FuserFindsEntry | 4_process_frames_to_ply.py:8-25 | a written file of several entries loads into a table whose keys are the timestamps, and an entry not repeated later is found with its own matrix |
| Handoffs.SingleRowLogNotLoadable | 4_process_frames_to_ply.py:20-23 | a pose log of one row gives a file the fuser cannot load |

## Left out

- Trigonometry and `math.radians`: floating-point sine and cosine are not exact. Each angle is given as a unit (cos, sin) pair.
- Floating-point rounding in general: the model computes over exact reals, and `TruncateToInt` is exact truncation.
- PoseTransforms.EulerToMatrix: NaN angle cells and NaN or infinite position cells are not modelled. Python does not raise on them: `radians`, `cos` and `sin` of NaN give NaN, and the matrix assignment accepts NaN and infinity. `euler_to_matrix` then returns a matrix with non-finite entries, and `process_csv` appends that entry; with such a row 0, no entry is finite. Exact reals have no such values, so a cell here is a finite number or one on which Python raises.
- CheckTransforms.ReadNumbers: the texts "nan", "inf", "-inf" and "infinity", in any case, are rejected with NotANumber. Python's `float()` accepts them, so `np.array(row[1:], dtype=float)` returns non-finite values and the checker goes on. pandas writes an infinite entry as "inf", so such a line can reach the checker. Exact reals have no non-finite values, so a field here is a finite number or text that is not one.
- Decimal.ParseInt: it reads ASCII digits and skips ASCII whitespace only. Python's `int()` also reads the other Unicode decimal digits (`int('٧') == 7`) and skips the other Unicode spaces (U+00A0, U+2000..U+200A and others). For such text the model gives None: a timestamp cell goes on to the date formats, and a frame name such as "٧.png" raises BadStem where Python pairs it with "7.jpg".
- `np.linalg.inv`: it is modelled as the rigid inverse (Rᵀ, −Rᵀt). This agrees with the general inverse on every matrix `euler_to_matrix` produces, because those matrices are rigid.
- `datetime.strptime` and `dt.timestamp()`: date parsing and the local time zone are the parameter `DateParsers`.
- pandas `read_csv` and `to_csv`, and NumPy `genfromtxt` as file readers:
  - A CSV file is a sequence of rows whose fields are kept by what they denote.
  - Quoting is not modelled.
  - The text form of floats is not modelled.
  - NaN cells produced by `genfromtxt` from text are not modelled (`Handoffs.Genfromtxt` requires numeric fields).
- The header pandas writes for an empty output frame: `OutputTable` always writes "0..16".
- Open3D:
  - It builds a cloud from an image pair; this is the parameter `project`.
  - Reading images is not modelled.
  - Visualising is not modelled.
  - Writing the point cloud is not modelled.
  - `pcd.transform` is modelled as moving each point's position by the affine part, R·p + t. Open3D also divides by the homogeneous coordinate that the bottom row gives. That coordinate is 1 whenever the bottom row is [0, 0, 0, 1], and it is for every matrix the fuser loads from the transform script's output (`Handoffs.CheckerReadsProcessOutput` shows each entry rigid, and so homogeneous). For other matrices the model and Open3D differ.
- pyrealsense2 and cv2:
  - Camera set-up, alignment and sensor options are not modelled. `set_option` is not modelled either; the model stops at the selected preset value.
  - The frame image data, the window and image writing are not modelled. The capture loop is a sequence of captures.
  - `save_intrinsic_as_json` takes the stream intrinsics, device name and serial number as parameters. JSON formatting is not modelled.
- Recorder.Capitalize: it folds ASCII letters only. Python's `capitalize()` also folds other Unicode letters, which cannot select any preset.
- Recorder.BackgroundMask: it requires depth and colour images of the same shape. NumPy would broadcast or raise on other shapes.
- `make_clean_folder` and the `input()` prompts: these are interaction, not logic. The prompt's answer is the parameter of `SelectPreset`.
- The UDP socket, UTF-8 decoding, ElementTree parsing and `print`: the parser is the parameter `parse`, which gives None for `ET.ParseError`. A message is the first child for each tag.
- The CSV writer's quoting: a written line is a sequence of field texts.
- The matplotlib and tkinter animation, scipy's `as_euler` and the formatting of times in the checker: these are visualisation. Only the translation half of `calculate_xyzabc` is modelled.
- `os.path.exists` of the input file and the overwrite prompt before saving: these are file-system checks. The model starts from the loaded rows.

/** The recorder's own rules: which visual preset a typed name selects, the camera
    record it writes next to the frames, how it names the frame files, and the grey
    background mask it shows while recording. */
module Recorder {
  import opened Wrappers
  import opened Matrices
  import Decimal
  import FramesToCloud

  // ---------------------------------------------------------------- presets

  /** `class Preset(IntEnum)`, in declaration order. */
  datatype Preset = Custom | Default | Hand | HighAccuracy | HighDensity | MediumDensity

  /** The members in the order iterating the enum yields them. */
  const AllPresets: seq<Preset> := [Custom, Default, Hand, HighAccuracy, HighDensity, MediumDensity]

  /** `preset.value`. */
  function Value(p: Preset): (v: nat)
    ensures v < 6 && AllPresets[v] == p
  {
    match p
    case Custom => 0
    case Default => 1
    case Hand => 2
    case HighAccuracy => 3
    case HighDensity => 4
    case MediumDensity => 5
  }

  /** `preset.name`. */
  function Name(p: Preset): string {
    match p
    case Custom => "Custom"
    case Default => "Default"
    case Hand => "Hand"
    case HighAccuracy => "HighAccuracy"
    case HighDensity => "HighDensity"
    case MediumDensity => "MediumDensity"
  }

  /** `{preset.name: preset.value for preset in Preset}`. */
  function PresetOptions(): (options: map<string, nat>)
    ensures forall p: Preset :: Name(p) in options && options[Name(p)] == Value(p)
    ensures forall name | name in options :: exists p: Preset :: Name(p) == name
  {
    map[Name(Custom) := Value(Custom), Name(Default) := Value(Default), Name(Hand) := Value(Hand),
        Name(HighAccuracy) := Value(HighAccuracy), Name(HighDensity) := Value(HighDensity),
        Name(MediumDensity) := Value(MediumDensity)]
  }

  predicate IsUpper(c: char) {
    'A' <= c <= 'Z'
  }

  predicate IsLower(c: char) {
    'a' <= c <= 'z'
  }

  /** `str.upper()` on one character, for ASCII letters. */
  function Upper(c: char): (u: char)
    ensures !IsLower(u)
    ensures IsLower(c) ==> IsUpper(u)
    ensures !IsLower(c) ==> u == c
  {
    if IsLower(c) then (c as int - 32) as char else c
  }

  /** `str.lower()` on one character, for ASCII letters. */
  function Lower(c: char): (l: char)
    ensures !IsUpper(l)
    ensures IsUpper(c) ==> IsLower(l)
    ensures !IsUpper(c) ==> l == c
  {
    if IsUpper(c) then (c as int + 32) as char else c
  }

  function LowerAll(s: string): (r: string)
    ensures |r| == |s| && forall k | 0 <= k < |s| :: r[k] == Lower(s[k])
  {
    seq(|s|, k requires 0 <= k < |s| => Lower(s[k]))
  }

  /** `s.capitalize()`: the first character upper case, all the others lower case. */
  function Capitalize(s: string): (r: string)
    ensures |r| == |s|
    ensures |s| > 0 ==> r[0] == Upper(s[0])
    ensures forall k | 1 <= k < |s| :: r[k] == Lower(s[k])
  {
    if s == [] then [] else [Upper(s[0])] + LowerAll(s[1..])
  }

  /** A word as `capitalize()` leaves it: an upper-case letter, then lower-case letters. */
  predicate IsCapitalizedWord(w: string) {
    |w| > 0 && IsUpper(w[0]) && forall k | 1 <= k < |w| :: IsLower(w[k])
  }

  /** Two characters have the same upper case exactly when they have the same lower case. */
  lemma CaseFoldAgrees(c: char, u: char)
    requires IsUpper(u)
    ensures Upper(c) == u <==> Lower(c) == Lower(u)
  {
  }

  lemma LowerOfLower(c: char)
    requires IsLower(c)
    ensures Lower(c) == c
  {
  }

  /** A capitalized word is hit exactly by the inputs that match it ignoring case. */
  lemma CapitalizeHits(s: string, w: string)
    requires IsCapitalizedWord(w)
    ensures Capitalize(s) == w <==> LowerAll(s) == LowerAll(w)
  {
    if |s| == |w| && |s| > 0 {
      CaseFoldAgrees(s[0], w[0]);
      if LowerAll(s) == LowerAll(w) {
        assert Lower(s[0]) == Lower(w[0]);
        forall k | 1 <= k < |s| ensures Capitalize(s)[k] == w[k] {
          assert Lower(s[k]) == Lower(w[k]);
          LowerOfLower(w[k]);
        }
      }
      if Capitalize(s) == w {
        forall k | 1 <= k < |s| ensures LowerAll(s)[k] == LowerAll(w)[k] {
          assert Lower(s[k]) == w[k];
          LowerOfLower(w[k]);
        }
      }
    }
  }

  /** What `capitalize()` returns never has an upper-case letter after the first character. */
  lemma CapitalizeMisses(s: string, w: string, k: nat)
    requires 1 <= k < |w| && IsUpper(w[k])
    ensures Capitalize(s) != w
  {
    if |s| == |w| {
      assert !IsUpper(Capitalize(s)[k]);
    }
  }

  /** The value sent as `rs.option.visual_preset`: an empty answer means "Default", the
      answer is capitalized and looked up, and any miss falls back to HighAccuracy. */
  function SelectPreset(answer: string): (v: nat)
    ensures v in PresetOptions().Values || v == Value(HighAccuracy)
  {
    var name := if answer == "" then "Default" else answer;
    var key := Capitalize(name);
    if key in PresetOptions() then PresetOptions()[key] else Value(HighAccuracy)
  }

  /** Pressing enter selects Default, whose value is 1. */
  lemma EmptyAnswerSelectsDefault()
    ensures SelectPreset("") == Value(Default) == 1
  {
    CapitalizeHits("Default", "Default");
  }

  /** Lower-cased forms of the three reachable names. */
  lemma FoldedNames()
    ensures LowerAll("Custom") == "custom"
    ensures LowerAll("Default") == "default"
    ensures LowerAll("Hand") == "hand"
  {
  }

  /** Only the six names are keys of the preset options. */
  lemma OnlyNamesAreKeys(key: string)
    requires forall p: Preset :: Name(p) != key
    ensures key !in PresetOptions()
  {
  }

  /** The preset chosen for every answer, stated independently of the lookup: Custom,
      Default and Hand are matched ignoring case, everything else gets HighAccuracy,
      and HighDensity and MediumDensity can never be chosen. */
  lemma SelectPresetChoice(answer: string)
    ensures var folded := LowerAll(if answer == "" then "Default" else answer);
      SelectPreset(answer) ==
        if folded == "custom" then Value(Custom)
        else if folded == "default" then Value(Default)
        else if folded == "hand" then Value(Hand)
        else Value(HighAccuracy)
    ensures SelectPreset(answer) != Value(HighDensity) && SelectPreset(answer) != Value(MediumDensity)
  {
    var name := if answer == "" then "Default" else answer;
    var folded := LowerAll(name);
    var key := Capitalize(name);
    FoldedNames();
    CapitalizeHits(name, "Custom");
    CapitalizeHits(name, "Default");
    CapitalizeHits(name, "Hand");
    if folded == "custom" {
      assert key == Name(Custom);
    } else if folded == "default" {
      assert key == Name(Default);
    } else if folded == "hand" {
      assert key == Name(Hand);
    } else {
      CapitalizeMisses(name, "HighAccuracy", 4);
      CapitalizeMisses(name, "HighDensity", 4);
      CapitalizeMisses(name, "MediumDensity", 6);
      assert forall p: Preset :: Name(p) != key by {
        forall p: Preset ensures Name(p) != key {
          match p
          case Custom =>
          case Default =>
          case Hand =>
          case HighAccuracy =>
          case HighDensity =>
          case MediumDensity =>
        }
      }
      OnlyNamesAreKeys(key);
    }
  }

  /** Typing the full name of a preset with an inner capital does not select it. */
  lemma HighDensityFallsBack()
    ensures SelectPreset("HighDensity") == Value(HighAccuracy)
  {
    SelectPresetChoice("HighDensity");
    assert LowerAll("HighDensity")[0] == 'h' && LowerAll("HighDensity")[1] == 'i';
  }

  // ---------------------------------------------------------------- camera record

  /** What the colour stream's `intrinsics` report. */
  datatype StreamIntrinsics = StreamIntrinsics(width: int, height: int, fx: real, fy: real, ppx: real, ppy: real)

  /** The `data` written by `save_intrinsic_as_json`, one field per key in the order written. */
  datatype CameraRecord = CameraRecord(
    colorFormat: string,
    depthFormat: string,
    depthScale: real,
    deviceName: string,
    fps: int,
    height: int,
    intrinsicMatrix: seq<real>,
    serialNumber: string,
    streamLengthUsec: int,
    width: int)

  /** The keys of the written object, in the order `json.dump` writes them. */
  const RecordKeys: seq<string> := ["color_format", "depth_format", "depth_scale", "device_name", "fps",
    "height", "intrinsic_matrix", "serial_number", "stream_length_usec", "width"]

  function SaveIntrinsic(intrinsics: StreamIntrinsics, deviceName: string, serialNumber: string,
                         depthScale: real, fps: int, streamLengthUsec: int): (record: CameraRecord)
    ensures record.colorFormat == "RGB8" && record.depthFormat == "Z16"
    ensures record.width == intrinsics.width && record.height == intrinsics.height
    ensures record.depthScale == depthScale && record.fps == fps && record.streamLengthUsec == streamLengthUsec
    ensures record.deviceName == deviceName && record.serialNumber == serialNumber
    ensures |record.intrinsicMatrix| == 9
  {
    CameraRecord("RGB8", "Z16", depthScale, deviceName, fps, intrinsics.height,
      [intrinsics.fx, 0.0, 0.0,
       0.0, intrinsics.fy, 0.0,
       intrinsics.ppx, intrinsics.ppy, 1.0],
      serialNumber, streamLengthUsec, intrinsics.width)
  }

  /** The pinhole model the point-cloud script builds from a record it loads. */
  datatype Pinhole = Pinhole(width: int, height: int, fx: real, fy: real, cx: real, cy: real)

  /** `PinholeCameraIntrinsic(width=..., fx=m[0], fy=m[4], cx=m[6], cy=m[7])`; None where
      the list is too short and indexing it raises IndexError. */
  function PinholeOf(record: CameraRecord): (p: Option<Pinhole>)
    ensures p.Some? <==> |record.intrinsicMatrix| >= 8
  {
    var m := record.intrinsicMatrix;
    if |m| < 8 then None
    else Some(Pinhole(record.width, record.height, m[0], m[4], m[6], m[7]))
  }

  /** The point-cloud script reads back exactly the camera the recorder saw. */
  lemma PinholeRoundTrip(intrinsics: StreamIntrinsics, deviceName: string, serialNumber: string,
                         depthScale: real, fps: int, streamLengthUsec: int)
    ensures PinholeOf(SaveIntrinsic(intrinsics, deviceName, serialNumber, depthScale, fps, streamLengthUsec))
      == Some(Pinhole(intrinsics.width, intrinsics.height, intrinsics.fx, intrinsics.fy, intrinsics.ppx, intrinsics.ppy))
  {
  }

  /** Nine values read column by column into a 3x3 matrix, the layout Open3D uses for
      `intrinsic_matrix`. */
  function ColumnMajor(m: seq<real>): Mat3
    requires |m| == 9
  {
    Mat3(m[0], m[3], m[6],
         m[1], m[4], m[7],
         m[2], m[5], m[8])
  }

  /** Read column by column, the written list is the camera matrix K: focal lengths on the
      diagonal and the principal point in the last column. */
  lemma RecordHoldsCameraMatrix(intrinsics: StreamIntrinsics, deviceName: string, serialNumber: string,
                                depthScale: real, fps: int, streamLengthUsec: int)
    ensures var m := SaveIntrinsic(intrinsics, deviceName, serialNumber, depthScale, fps, streamLengthUsec).intrinsicMatrix;
      ColumnMajor(m) == Mat3(intrinsics.fx, 0.0, intrinsics.ppx,
                             0.0, intrinsics.fy, intrinsics.ppy,
                             0.0, 0.0, 1.0)
  {
  }

  /** `int((end_time - start_time) * 1000000)`: the recording's length in whole microseconds. */
  function StreamLength(startTime: real, endTime: real): (usec: int)
    ensures startTime <= endTime ==> 0 <= usec && usec as real <= (endTime - startTime) * 1000000.0 < usec as real + 1.0
  {
    Decimal.TruncateToInt((endTime - startTime) * 1000000.0)
  }

  // ---------------------------------------------------------------- frame files

  /** `int(aligned_depth_frame.get_timestamp())`, the frame's number. */
  function FrameNumber(timestamp: real): int {
    Decimal.TruncateToInt(timestamp)
  }

  /** `f"{timestamp_str}.png"`, the depth file. */
  function DepthName(timestamp: real): string {
    Decimal.FormatInt(FrameNumber(timestamp)) + ".png"
  }

  /** `f"{timestamp_str}.jpg"`, the colour file. */
  function ColourName(timestamp: real): string {
    Decimal.FormatInt(FrameNumber(timestamp)) + ".jpg"
  }

  lemma FormatIntHasNoDot(n: int)
    ensures forall k | 0 <= k < |Decimal.FormatInt(n)| :: Decimal.FormatInt(n)[k] != '.'
    ensures |Decimal.FormatInt(n)| > 0 && Decimal.FormatInt(n)[0] != '.'
  {
    if n < 0 {
      var d := Decimal.FormatNat(-n);
      assert forall k | 1 <= k < |Decimal.FormatInt(n)| :: Decimal.FormatInt(n)[k] == d[k - 1];
    }
  }

  /** The stem of a name built from an integer and an extension is that integer's text. */
  lemma StemOfFrameName(n: int, ext: string)
    requires |ext| > 0 && forall k | 0 <= k < |ext| :: ext[k] != '.'
    ensures FramesToCloud.SplitExtRoot(Decimal.FormatInt(n) + "." + ext) == Decimal.FormatInt(n)
  {
    var text := Decimal.FormatInt(n);
    var name := text + "." + ext;
    FormatIntHasNoDot(n);
    assert name[|text|] == '.';
    assert forall k | |text| < k < |name| :: name[k] == ext[k - |text| - 1];
    var last := FramesToCloud.LastDot(name);
    assert last == Some(|text|);
    assert name[0] != '.';
    assert name[..|text|] == text;
  }

  /** Every depth file the recorder writes is picked up by the point-cloud script: its stem
      reads back as the frame number, and the partner it looks for is the colour file
      written with it. */
  lemma FrameNamesPair(timestamp: real, colours: set<string>)
    ensures FramesToCloud.EndsWith(DepthName(timestamp), ".png")
    ensures Decimal.ParseInt(FramesToCloud.SplitExtRoot(DepthName(timestamp))) == Some(FrameNumber(timestamp))
    ensures FramesToCloud.PartnerName(FrameNumber(timestamp)) == ColourName(timestamp)
    ensures FramesToCloud.Paired(DepthName(timestamp), colours) <==> ColourName(timestamp) in colours
  {
    var n := FrameNumber(timestamp);
    assert DepthName(timestamp) == Decimal.FormatInt(n) + "." + "png";
    StemOfFrameName(n, "png");
    Decimal.ParseFormatInt(n);
    var name := DepthName(timestamp);
    assert name[|name| - 4..] == ".png";
  }

  // ---------------------------------------------------------------- background mask

  /** A colour pixel, as its three channels. */
  datatype Pixel = Pixel(b: int, g: int, r: int)

  const GreyColour: int := 153
  const Grey: Pixel := Pixel(GreyColour, GreyColour, GreyColour)

  /** Two images of the same height and width. */
  predicate SameShape<A, B>(x: seq<seq<A>>, y: seq<seq<B>>) {
    |x| == |y| && forall i | 0 <= i < |x| :: |x[i]| == |y[i]|
  }

  /** Whether a depth is drawn grey: beyond the clipping distance or nearer than the minimum. */
  predicate Background(d: int, clip: real, nearest: real) {
    d as real > clip || d as real < nearest
  }

  /** `np.where((depth_3d > clipping_distance) | (depth_3d < min_distance), grey, color)`. */
  function BackgroundMask(depth: seq<seq<int>>, colour: seq<seq<Pixel>>, clip: real, nearest: real): (shown: seq<seq<Pixel>>)
    requires SameShape(depth, colour)
    ensures SameShape(shown, colour)
    ensures forall i, j | 0 <= i < |colour| && 0 <= j < |colour[i]| ::
      shown[i][j] == if Background(depth[i][j], clip, nearest) then Grey else colour[i][j]
  {
    seq(|colour|, i requires 0 <= i < |colour| =>
      seq(|colour[i]|, j requires 0 <= j < |colour[i]| =>
        if Background(depth[i][j], clip, nearest) then Grey else colour[i][j]))
  }

  /** A pixel keeps its colour exactly when its depth lies in [min, clip], both ends included. */
  lemma KeptBetweenThresholds(depth: seq<seq<int>>, colour: seq<seq<Pixel>>, clip: real, nearest: real, i: nat, j: nat)
    requires SameShape(depth, colour) && i < |colour| && j < |colour[i]|
    requires colour[i][j] != Grey
    ensures BackgroundMask(depth, colour, clip, nearest)[i][j] == colour[i][j] <==>
      nearest <= depth[i][j] as real <= clip
  {
  }

  /** Masking an already masked image with the same depths changes nothing. */
  lemma MaskIdempotent(depth: seq<seq<int>>, colour: seq<seq<Pixel>>, clip: real, nearest: real)
    requires SameShape(depth, colour)
    ensures var once := BackgroundMask(depth, colour, clip, nearest);
      BackgroundMask(depth, once, clip, nearest) == once
  {
    var once := BackgroundMask(depth, colour, clip, nearest);
    var twice := BackgroundMask(depth, once, clip, nearest);
    forall i | 0 <= i < |once| ensures twice[i] == once[i] {
      assert |twice[i]| == |once[i]|;
      forall j | 0 <= j < |once[i]| ensures twice[i][j] == once[i][j] {
      }
    }
  }

  // ---------------------------------------------------------------- the capture loop

  /** One pass of the streaming loop: either the aligned frames were incomplete, or a
      frame with its timestamp and the key read after showing it. */
  datatype Capture = Incomplete | Frame(timestamp: real, key: int)

  const EscapeKey: int := 27

  /** The depth and colour files the loop writes for the captures it is given, stopping
      after the first frame shown when escape was pressed. */
  function Recorded(captures: seq<Capture>): seq<(string, string)>
    decreases |captures|
  {
    if captures == [] then []
    else match captures[0]
      case Incomplete => Recorded(captures[1..])
      case Frame(t, key) =>
        [(DepthName(t), ColourName(t))] + (if key == EscapeKey then [] else Recorded(captures[1..]))
  }

  /** The streaming loop over the captures the camera delivers: incomplete frame sets are
      skipped, every complete one is saved under its frame number and counted, and
      escape ends the loop. */
  method RecordFrames(captures: seq<Capture>) returns (written: seq<(string, string)>, frameCount: nat)
    ensures written == Recorded(captures)
    ensures frameCount == |written|
  {
    written := [];
    frameCount := 0;
    var i := 0;
    while i < |captures|
      invariant 0 <= i <= |captures|
      invariant frameCount == |written|
      invariant written + Recorded(captures[i..]) == Recorded(captures)
    {
      match captures[i]
      case Incomplete =>
        assert captures[i..][1..] == captures[i + 1..];
        i := i + 1;
      case Frame(t, key) =>
        assert captures[i..][1..] == captures[i + 1..];
        written := written + [(DepthName(t), ColourName(t))];
        frameCount := frameCount + 1;
        if key == EscapeKey {
          return;
        }
        i := i + 1;
    }
  }

  /** Every pair written is a depth file and the colour file it pairs with. */
  lemma {:induction false} RecordedPairs(captures: seq<Capture>, colours: set<string>)
    ensures forall w | w in Recorded(captures) ::
      FramesToCloud.Paired(w.0, colours) <==> w.1 in colours
    decreases |captures|
  {
    if captures != [] {
      RecordedPairs(captures[1..], colours);
      if captures[0].Frame? {
        FrameNamesPair(captures[0].timestamp, colours);
      }
    }
  }

  /** Nothing after the first escape is recorded. */
  lemma {:induction false} EscapeStops(captures: seq<Capture>, i: nat)
    requires i < |captures| && captures[i].Frame? && captures[i].key == EscapeKey
    ensures Recorded(captures) == Recorded(captures[..i + 1])
    decreases i
  {
    if i > 0 {
      var rest := captures[1..];
      assert rest[i - 1] == captures[i];
      EscapeStops(rest, i - 1);
      assert captures[..i + 1][1..] == rest[..i];
    }
  }
}

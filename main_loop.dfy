/**
 * The state the mono program's main loop keeps between iterations, and the
 * decisions it makes on it: which detected marker is nearest, when the
 * tracking is reset automatically, what each key does, and the pose line
 * written to `robot_aruco_pose.txt`.
 */
module MainLoop {
  import opened Wrappers
  import opened Text

  /** An `sl::Transform` seen through `getTranslation()` and `getEulerAngles(false)`. */
  datatype EulerPose<F> = EulerPose(tx: F, ty: F, tz: F, roll: F, pitch: F, yaw: F)

  /**
   * One detected marker: its id, the norm of its estimated translation, the
   * outcome of the tag-size test and the camera pose the loop computes from it.
   */
  datatype Marker<F> = Marker(id: int, distance: real, validForReset: bool, pose: EulerPose<F>)

  /** `1e9f`, the distance the nearest-marker search starts from. */
  const NearestSeed: real := 1000000000.0

  const PoseFileName: string := "robot_aruco_pose.txt"

  const SaveFailed: string := "Unable to open file to save pose."

  // ---------------------------------------------------------------------
  // The pose file

  /** The six values in the order tx ty tz roll pitch yaw. */
  function PoseWords<F>(codec: NumberText<F>, p: EulerPose<F>): seq<string> {
    [codec.format(p.tx), codec.format(p.ty), codec.format(p.tz),
     codec.format(p.roll), codec.format(p.pitch), codec.format(p.yaw)]
  }

  /** The six values, in the order they are written. */
  function PoseValues<F>(p: EulerPose<F>): (xs: seq<F>)
    ensures |xs| == 6
  {
    [p.tx, p.ty, p.tz, p.roll, p.pitch, p.yaw]
  }

  lemma PoseWordsAt<F>(codec: NumberText<F>, p: EulerPose<F>, i: int)
    requires 0 <= i < 6
    ensures PoseWords(codec, p)[i] == codec.format(PoseValues(p)[i])
  {
  }

  /** What the SPACE key writes to the pose file: the six values separated by single spaces. */
  function PoseLine<F>(codec: NumberText<F>, p: EulerPose<F>): string {
    JoinSpaced(PoseWords(codec, p))
  }

  /** Read word by word, the pose line gives the six values back in the order they were written. */
  lemma PoseLineWords<F>(codec: NumberText<F>, p: EulerPose<F>)
    requires IsToken(codec.format(p.tx)) && IsToken(codec.format(p.ty)) && IsToken(codec.format(p.tz))
    requires IsToken(codec.format(p.roll)) && IsToken(codec.format(p.pitch)) && IsToken(codec.format(p.yaw))
    ensures Tokens(PoseLine(codec, p)) == PoseWords(codec, p)
  {
    var ws := PoseWords(codec, p);
    forall i | 0 <= i < |ws| ensures IsToken(ws[i]) {
      // One case per position, so that each requires clause is matched to its word.
      if i == 0 {} else if i == 1 {} else if i == 2 {} else if i == 3 {} else if i == 4 {} else {}
    }
    TokensOfJoinSpaced(ws);
  }

  // ---------------------------------------------------------------------
  // Nearest marker

  /** The distance of each detected marker, in detection order. */
  function Distances<F>(markers: seq<Marker<F>>): seq<real>
  {
    seq(|markers|, i requires 0 <= i < |markers| => markers[i].distance)
  }

  /** The seed, lowered to every distance that was strictly smaller than all before it. */
  function Best(ds: seq<real>): real
  {
    if ds == [] then NearestSeed
    else
      var b := Best(ds[..|ds| - 1]);
      if b > ds[|ds| - 1] then ds[|ds| - 1] else b
  }

  /** The index the search ends with, starting from the index kept from the previous frame. */
  function NearestIndex(ds: seq<real>, previous: int): int
  {
    if ds == [] then previous
    else
      var i := |ds| - 1;
      if Best(ds[..i]) > ds[i] then i else NearestIndex(ds[..i], previous)
  }

  /**
   * `r` is the first index of the smallest distance below the seed; when no
   * distance is below the seed, the previous index is kept.
   */
  ghost predicate IsNearest(ds: seq<real>, previous: int, r: int) {
    if forall i :: 0 <= i < |ds| ==> ds[i] >= NearestSeed then r == previous
    else
      && 0 <= r < |ds| && ds[r] < NearestSeed
      && (forall j :: 0 <= j < |ds| ==> ds[r] <= ds[j])
      && (forall j :: 0 <= j < r ==> ds[r] < ds[j])
  }

  lemma {:induction false} NearestIndexProperties(ds: seq<real>, previous: int)
    ensures Best(ds) <= NearestSeed
    ensures forall j :: 0 <= j < |ds| ==> Best(ds) <= ds[j]
    ensures (forall j :: 0 <= j < |ds| ==> ds[j] >= NearestSeed) ==>
      Best(ds) == NearestSeed && NearestIndex(ds, previous) == previous
    ensures (exists j :: 0 <= j < |ds| && ds[j] < NearestSeed) ==>
      var r := NearestIndex(ds, previous);
      0 <= r < |ds| && ds[r] == Best(ds) && forall j :: 0 <= j < r ==> ds[r] < ds[j]
  {
    if ds != [] {
      var i := |ds| - 1;
      var prefix := ds[..i];
      NearestIndexProperties(prefix, previous);
      assert forall j :: 0 <= j < i ==> prefix[j] == ds[j];
      if !(exists j :: 0 <= j < i && prefix[j] < NearestSeed) {
        assert forall j :: 0 <= j < |prefix| ==> prefix[j] >= NearestSeed;
      }
    }
  }

  /** The nearest index is the first index of the strictly smallest distance below the seed. */
  lemma NearestIndexIsNearest(ds: seq<real>, previous: int)
    ensures IsNearest(ds, previous, NearestIndex(ds, previous))
  {
    NearestIndexProperties(ds, previous);
  }

  /** When some distance is below the seed, the previous index plays no part. */
  lemma {:induction false} NearestIndexIgnoresPrevious(ds: seq<real>, p: int, q: int)
    requires exists j :: 0 <= j < |ds| && ds[j] < NearestSeed
    ensures NearestIndex(ds, p) == NearestIndex(ds, q)
  {
    var i := |ds| - 1;
    var prefix := ds[..i];
    if !(Best(prefix) > ds[i]) {
      if exists j :: 0 <= j < |prefix| && prefix[j] < NearestSeed {
        NearestIndexIgnoresPrevious(prefix, p, q);
      } else {
        // Every earlier distance is at least the seed, so the last one is
        // below it and below Best(prefix): this branch cannot be taken.
        NearestIndexProperties(prefix, p);
        assert false;
      }
    }
  }

  /** Searching a second time over the same distances ends at the same index. */
  lemma NearestIndexStable(ds: seq<real>, previous: int)
    ensures NearestIndex(ds, NearestIndex(ds, previous)) == NearestIndex(ds, previous)
  {
    if exists j :: 0 <= j < |ds| && ds[j] < NearestSeed {
      NearestIndexIgnoresPrevious(ds, NearestIndex(ds, previous), previous);
    } else {
      NearestIndexProperties(ds, previous);
      NearestIndexProperties(ds, NearestIndex(ds, previous));
    }
  }

  /** The loop at lines 339-354: keep the strictly smaller distance and its index. */
  method SelectNearest(distances: seq<real>, previous: int) returns (index: int)
    ensures index == NearestIndex(distances, previous)
    ensures IsNearest(distances, previous, index)
  {
    var nearestDistance := NearestSeed;
    index := previous;
    for i := 0 to |distances|
      invariant nearestDistance == Best(distances[..i])
      invariant index == NearestIndex(distances[..i], previous)
    {
      assert distances[..i + 1][..i] == distances[..i];
      if nearestDistance > distances[i] {
        nearestDistance := distances[i];
        index := i;
      }
    }
    assert distances[..|distances|] == distances;
    NearestIndexIsNearest(distances, previous);
  }

  // ---------------------------------------------------------------------
  // The loop state and its steps

  datatype LoopState<F> = LoopState(
    pauseCamera: bool,
    zedTracking: bool,
    showArucoPath: bool,
    hasReset: bool,
    canReset: bool,
    lastArucoReset: int,
    nearestArucoIndex: int,
    pose: EulerPose<F>,
    trackingResets: seq<EulerPose<F>>,   // the poses passed to resetPositionalTracking, in order
    files: FileSystem,
    errors: seq<string>)

  /** The values the loop variables start with; `pose` is the identity transform. */
  function Start<F>(zero: F, files: FileSystem): LoopState<F> {
    LoopState(false, false, false, false, false, -1, 0,
              EulerPose(zero, zero, zero, zero, zero, zero), [], files, [])
  }

  /** What every reachable state satisfies: after a marker was seen, the pose's height has been cleared. */
  ghost predicate Inv<F>(s: LoopState<F>, zero: F) {
    s.nearestArucoIndex >= 0 && (s.canReset ==> s.pose.tz == zero)
  }

  /** With markers present, the search ends on an index among them, so the index accesses are defined. */
  predicate FrameDefined<F>(s: LoopState<F>, markers: seq<Marker<F>>) {
    markers != [] ==> 0 <= NearestIndex(Distances(markers), s.nearestArucoIndex) < |markers|
  }

  /** The guard at lines 469-471. */
  predicate AutoResetFires<F>(s: LoopState<F>, markers: seq<Marker<F>>)
    requires markers != [] && s.canReset ==> 0 <= s.nearestArucoIndex < |markers|
  {
    && markers != []
    && s.canReset
    && s.lastArucoReset != markers[s.nearestArucoIndex].id
    && markers[s.nearestArucoIndex].validForReset
  }

  /** Lines 332-402: with markers, the nearest one gives the pose and a reset becomes possible. */
  function SelectStep<F>(s: LoopState<F>, markers: seq<Marker<F>>): LoopState<F>
    requires FrameDefined(s, markers)
  {
    if markers != [] then
      var n := NearestIndex(Distances(markers), s.nearestArucoIndex);
      s.(nearestArucoIndex := n, pose := markers[n].pose, canReset := true)
    else s.(canReset := false)
  }

  /** Lines 469-477: the automatic reset to the current pose. */
  function AutoResetStep<F>(s: LoopState<F>, markers: seq<Marker<F>>): LoopState<F>
    requires markers != [] && s.canReset ==> 0 <= s.nearestArucoIndex < |markers|
  {
    if AutoResetFires(s, markers) then
      s.(trackingResets := s.trackingResets + [s.pose], hasReset := true,
         lastArucoReset := markers[s.nearestArucoIndex].id)
    else s
  }

  /** Lines 499-500: the pose's height is cleared before it goes to the viewer. */
  function ClearHeight<F>(s: LoopState<F>, zero: F): LoopState<F> {
    s.(pose := s.pose.(tz := zero))
  }

  /** One grabbed frame with its detected markers. */
  function FrameStep<F>(s: LoopState<F>, zero: F, markers: seq<Marker<F>>): LoopState<F>
    requires FrameDefined(s, markers)
  {
    ClearHeight(AutoResetStep(SelectStep(s, markers), markers), zero)
  }

  /** Lines 517-544: SPACE while a marker is seen resets the tracking and saves the pose. */
  function SpaceKey<F>(s: LoopState<F>, codec: NumberText<F>, key: char, poseFileOpens: bool): LoopState<F> {
    if key == ' ' && s.canReset then
      var r := s.(trackingResets := s.trackingResets + [s.pose], hasReset := true);
      if poseFileOpens then r.(files := r.files[PoseFileName := PoseLine(codec, s.pose)])
      else r.(errors := r.errors + [SaveFailed])
    else s
  }

  function PauseKey<F>(s: LoopState<F>, key: char): LoopState<F> {
    if key == 'p' || key == 'P' then s.(pauseCamera := !s.pauseCamera) else s
  }

  function TrackingViewKey<F>(s: LoopState<F>, key: char): LoopState<F> {
    if key == 'z' || key == 'Z' then s.(zedTracking := true) else s
  }

  function ArucoPathKey<F>(s: LoopState<F>, key: char): LoopState<F> {
    if key == 'd' || key == 'D' then s.(showArucoPath := !s.showArucoPath) else s
  }

  function ArucoViewKey<F>(s: LoopState<F>, key: char): LoopState<F> {
    if key == 'a' || key == 'A' then s.(zedTracking := false) else s
  }

  /** The key tests at lines 517-566, made one after another. */
  function KeyStep<F>(s: LoopState<F>, codec: NumberText<F>, key: char, poseFileOpens: bool): LoopState<F>
  {
    ArucoViewKey(ArucoPathKey(TrackingViewKey(PauseKey(SpaceKey(s, codec, key, poseFileOpens), key), key), key), key)
  }

  /** One pass of the loop: a frame is processed only when not paused and the grab succeeded. */
  function IterationStep<F>(s: LoopState<F>, codec: NumberText<F>, grabbed: bool,
                            markers: seq<Marker<F>>, key: char, poseFileOpens: bool): LoopState<F>
    requires !s.pauseCamera && grabbed ==> FrameDefined(s, markers)
  {
    var s1 := if !s.pauseCamera && grabbed then FrameStep(s, codec.zero, markers) else s;
    KeyStep(s1, codec, key, poseFileOpens)
  }

  // ---------------------------------------------------------------------
  // Properties of the steps

  lemma StartSatisfiesInv<F>(zero: F, files: FileSystem)
    ensures Inv(Start(zero, files), zero)
  {
  }

  lemma IterationKeepsInv<F>(s: LoopState<F>, codec: NumberText<F>, grabbed: bool,
                             markers: seq<Marker<F>>, key: char, poseFileOpens: bool)
    requires Inv(s, codec.zero)
    requires !s.pauseCamera && grabbed ==> FrameDefined(s, markers)
    ensures Inv(IterationStep(s, codec, grabbed, markers, key, poseFileOpens), codec.zero)
  {
    var s1 := if !s.pauseCamera && grabbed then FrameStep(s, codec.zero, markers) else s;
    if !s.pauseCamera && grabbed {
      FrameKeepsInv(s, codec.zero, markers);
    }
    KeyKeepsInv(s1, codec, key, poseFileOpens);
  }

  lemma FrameKeepsInv<F>(s: LoopState<F>, zero: F, markers: seq<Marker<F>>)
    requires Inv(s, zero) && FrameDefined(s, markers)
    ensures Inv(FrameStep(s, zero, markers), zero)
  {
    if markers != [] {
      NearestIndexProperties(Distances(markers), s.nearestArucoIndex);
    }
  }

  lemma KeyKeepsInv<F>(s: LoopState<F>, codec: NumberText<F>, key: char, poseFileOpens: bool)
    requires Inv(s, codec.zero)
    ensures Inv(KeyStep(s, codec, key, poseFileOpens), codec.zero)
  {
  }

  /**
   * A frame resets the tracking exactly when markers are seen, the nearest
   * one has an id other than the last reset's and it passes the size test;
   * a reset records that id and the pose computed from that marker.
   */
  lemma AutoResetCondition<F>(s: LoopState<F>, zero: F, markers: seq<Marker<F>>)
    requires FrameDefined(s, markers)
    ensures var r := FrameStep(s, zero, markers);
      if markers != [] then
        var n := NearestIndex(Distances(markers), s.nearestArucoIndex);
        var fires := markers[n].id != s.lastArucoReset && markers[n].validForReset;
        var seen := s.(nearestArucoIndex := n, canReset := true, pose := markers[n].pose.(tz := zero));
        if fires then
          r == seen.(trackingResets := s.trackingResets + [markers[n].pose], hasReset := true,
                     lastArucoReset := markers[n].id)
        else r == seen
      else
        r == s.(canReset := false, pose := s.pose.(tz := zero))
  {
  }

  /** The same markers seen in two frames in a row reset the tracking at most once. */
  lemma NoSecondAutoResetForSameMarker<F>(s: LoopState<F>, zero: F, markers: seq<Marker<F>>)
    requires FrameDefined(s, markers)
    ensures FrameDefined(FrameStep(s, zero, markers), markers)
    ensures var r := FrameStep(s, zero, markers);
      FrameStep(r, zero, markers).trackingResets == r.trackingResets
  {
    if markers != [] {
      NearestIndexStable(Distances(markers), s.nearestArucoIndex);
    }
  }

  /** `p` and `P` toggle the pause and change nothing else. */
  lemma PauseKeyToggles<F>(s: LoopState<F>, codec: NumberText<F>, key: char, poseFileOpens: bool)
    requires key == 'p' || key == 'P'
    ensures KeyStep(s, codec, key, poseFileOpens) == s.(pauseCamera := !s.pauseCamera)
  {
  }

  /** `z` and `Z` switch the display to the camera's own tracking. */
  lemma TrackingKeySelectsCameraTracking<F>(s: LoopState<F>, codec: NumberText<F>, key: char, poseFileOpens: bool)
    requires key == 'z' || key == 'Z'
    ensures KeyStep(s, codec, key, poseFileOpens) == s.(zedTracking := true)
  {
  }

  /** `a` and `A` switch the display back to the marker pose. */
  lemma ArucoKeySelectsMarkerPose<F>(s: LoopState<F>, codec: NumberText<F>, key: char, poseFileOpens: bool)
    requires key == 'a' || key == 'A'
    ensures KeyStep(s, codec, key, poseFileOpens) == s.(zedTracking := false)
  {
  }

  /** `d` and `D` toggle the drawing of the marker path. */
  lemma PathKeyToggles<F>(s: LoopState<F>, codec: NumberText<F>, key: char, poseFileOpens: bool)
    requires key == 'd' || key == 'D'
    ensures KeyStep(s, codec, key, poseFileOpens) == s.(showArucoPath := !s.showArucoPath)
  {
  }

  /** SPACE while no marker is seen does nothing. */
  lemma SpaceWithoutMarkerDoesNothing<F>(s: LoopState<F>, codec: NumberText<F>, poseFileOpens: bool)
    requires !s.canReset
    ensures KeyStep(s, codec, ' ', poseFileOpens) == s
  {
  }

  /** A key with no binding changes nothing. */
  lemma OtherKeysChangeNothing<F>(s: LoopState<F>, codec: NumberText<F>, key: char, poseFileOpens: bool)
    requires key !in "pPzZaAdD "
    ensures KeyStep(s, codec, key, poseFileOpens) == s
  {
  }

  /** Pressing `p` twice restores the pause flag and leaves everything else as it was. */
  lemma PauseTwiceRestores<F>(s: LoopState<F>, codec: NumberText<F>, poseFileOpens: bool)
    ensures KeyStep(KeyStep(s, codec, 'p', poseFileOpens), codec, 'p', poseFileOpens) == s
  {
  }

  /**
   * SPACE while a reset is possible resets the tracking to the current pose
   * and writes that pose to the pose file, whose height is then always zero.
   */
  lemma SpaceSavesPose<F>(s: LoopState<F>, codec: NumberText<F>, poseFileOpens: bool)
    requires Inv(s, codec.zero) && s.canReset
    ensures s.pose.tz == codec.zero
    ensures KeyStep(s, codec, ' ', poseFileOpens) ==
      var r := s.(trackingResets := s.trackingResets + [s.pose], hasReset := true);
      if poseFileOpens then r.(files := s.files[PoseFileName := PoseLine(codec, s.pose)])
      else r.(errors := s.errors + [SaveFailed])
  {
  }

  // ---------------------------------------------------------------------
  // The loop variables, updated in place

  class MainLoop<F> {
    const codec: NumberText<F>
    var pauseCamera: bool
    var zedTracking: bool
    var showArucoPath: bool
    var hasReset: bool
    var canReset: bool
    var lastArucoReset: int
    var nearestArucoIndex: int
    var pose: EulerPose<F>
    var trackingResets: seq<EulerPose<F>>
    var files: FileSystem
    var errors: seq<string>

    function State(): LoopState<F>
      reads this
    {
      LoopState(pauseCamera, zedTracking, showArucoPath, hasReset, canReset, lastArucoReset,
                nearestArucoIndex, pose, trackingResets, files, errors)
    }

    ghost predicate Valid()
      reads this
    {
      Inv(State(), codec.zero)
    }

    constructor (codec: NumberText<F>, files: FileSystem)
      ensures this.codec == codec
      ensures Valid() && State() == Start(codec.zero, files)
    {
      this.codec := codec;
      pauseCamera, zedTracking, showArucoPath := false, false, false;
      hasReset, canReset := false, false;
      lastArucoReset := -1;
      nearestArucoIndex := 0;
      pose := EulerPose(codec.zero, codec.zero, codec.zero, codec.zero, codec.zero, codec.zero);
      trackingResets := [];
      this.files := files;
      errors := [];
    }

    /** The detection part of one iteration, for the markers of the grabbed image. */
    method ProcessFrame(markers: seq<Marker<F>>)
      requires Valid() && FrameDefined(State(), markers)
      modifies this
      ensures Valid()
      ensures State() == FrameStep(old(State()), codec.zero, markers)
    {
      SelectNearestMarker(markers);
      AutoReset(markers);
      pose := pose.(tz := codec.zero);
      FrameKeepsInv(old(State()), codec.zero, markers);
    }

    /** The detection branch: the pose from the nearest marker, and whether a reset is possible. */
    method SelectNearestMarker(markers: seq<Marker<F>>)
      requires FrameDefined(State(), markers)
      modifies this
      ensures State() == SelectStep(old(State()), markers)
    {
      if |markers| > 0 {
        nearestArucoIndex := SelectNearest(Distances(markers), nearestArucoIndex);
        pose := markers[nearestArucoIndex].pose;
        canReset := true;
      } else {
        canReset := false;
      }
    }

    method AutoReset(markers: seq<Marker<F>>)
      requires |markers| > 0 && canReset ==> 0 <= nearestArucoIndex < |markers|
      modifies this
      ensures State() == AutoResetStep(old(State()), markers)
    {
      if |markers| > 0 && canReset && lastArucoReset != markers[nearestArucoIndex].id {
        var resetPose := markers[nearestArucoIndex].validForReset;
        if resetPose {
          trackingResets := trackingResets + [pose];
          hasReset := true;
          lastArucoReset := markers[nearestArucoIndex].id;
        }
      }
    }

    /** The key handling at the end of every iteration. */
    method HandleKey(key: char, poseFileOpens: bool)
      requires Valid()
      modifies this
      ensures Valid()
      ensures State() == KeyStep(old(State()), codec, key, poseFileOpens)
    {
      ResetOnSpace(key, poseFileOpens);
      SwitchViews(key);
      KeyKeepsInv(old(State()), codec, key, poseFileOpens);
    }

    /** The pause and display keys. */
    method SwitchViews(key: char)
      modifies this
      ensures State() == ArucoViewKey(ArucoPathKey(TrackingViewKey(PauseKey(old(State()), key), key), key), key)
    {
      if key == 'p' || key == 'P' {
        pauseCamera := !pauseCamera;
      }
      if key == 'z' || key == 'Z' {
        zedTracking := true;
      }
      if key == 'd' || key == 'D' {
        showArucoPath := !showArucoPath;
      }
      if key == 'a' || key == 'A' {
        zedTracking := false;
      }
    }

    method ResetOnSpace(key: char, poseFileOpens: bool)
      modifies this
      ensures State() == SpaceKey(old(State()), codec, key, poseFileOpens)
    {
      if key == ' ' && canReset {
        trackingResets := trackingResets + [pose];
        hasReset := true;
        if poseFileOpens {
          files := files[PoseFileName := PoseLine(codec, pose)];
        } else {
          errors := errors + [SaveFailed];
        }
      }
    }

    /** One pass of the `while` loop. */
    method Iterate(grabbed: bool, markers: seq<Marker<F>>, key: char, poseFileOpens: bool)
      requires Valid()
      requires !pauseCamera && grabbed ==> FrameDefined(State(), markers)
      modifies this
      ensures Valid()
      ensures State() == IterationStep(old(State()), codec, grabbed, markers, key, poseFileOpens)
    {
      if !pauseCamera && grabbed {
        ProcessFrame(markers);
      }
      HandleKey(key, poseFileOpens);
    }
  }
}

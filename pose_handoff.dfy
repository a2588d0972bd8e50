/**
 * The pose file as the contract between the two programs: what the mono
 * program saves on SPACE is what publish_aruco_pose reads and publishes.
 */
module PoseHandoff {
  import opened Wrappers
  import opened Text
  import MainLoop
  import PosePublisher

  /** Both programs use the same file name. */
  lemma SameFileName()
    ensures MainLoop.PoseFileName == PosePublisher.FileName
  {
  }

  /** Reading a saved pose line gives back the six values in their own fields. */
  lemma {:induction false} PoseLineReadsBack<F>(codec: NumberText<F>, p: MainLoop.EulerPose<F>, fs: FileSystem)
    requires RoundTrips(codec, p.tx) && RoundTrips(codec, p.ty) && RoundTrips(codec, p.tz)
    requires RoundTrips(codec, p.roll) && RoundTrips(codec, p.pitch) && RoundTrips(codec, p.yaw)
    ensures var files := fs[PosePublisher.FileName := MainLoop.PoseLine(codec, p)];
      PosePublisher.PoseFromFile(codec, files, PosePublisher.FileName) ==
        PosePublisher.ArucoPose(PosePublisher.Set(p.tx), PosePublisher.Set(p.ty), PosePublisher.Set(p.tz),
                                PosePublisher.Set(p.roll), PosePublisher.Set(p.pitch), PosePublisher.Set(p.yaw))
  {
    var files := fs[PosePublisher.FileName := MainLoop.PoseLine(codec, p)];
    assert files[PosePublisher.FileName] == MainLoop.PoseLine(codec, p);
    MainLoop.PoseLineWords(codec, p);
    var ws := MainLoop.PoseWords(codec, p);
    var xs := MainLoop.PoseValues(p);
    forall i | 0 <= i < 6 ensures codec.parse(ws[i]) == Some(xs[i]) {
      WordParsesBack(codec, p, i);
    }
    assert Tokens(files[PosePublisher.FileName]) == ws;
    PosePublisher.PoseFromSixNumbers(codec, files, PosePublisher.FileName, xs);
  }

  /** Each written word parses back to the value it was formatted from. */
  lemma WordParsesBack<F>(codec: NumberText<F>, p: MainLoop.EulerPose<F>, i: int)
    requires RoundTrips(codec, p.tx) && RoundTrips(codec, p.ty) && RoundTrips(codec, p.tz)
    requires RoundTrips(codec, p.roll) && RoundTrips(codec, p.pitch) && RoundTrips(codec, p.yaw)
    requires 0 <= i < 6
    ensures codec.parse(MainLoop.PoseWords(codec, p)[i]) == Some(MainLoop.PoseValues(p)[i])
  {
    MainLoop.PoseWordsAt(codec, p, i);
    assert RoundTrips(codec, MainLoop.PoseValues(p)[i]) by {
      // One case per position, so that each requires clause is matched to its value.
      if i == 0 {} else if i == 1 {} else if i == 2 {} else if i == 3 {} else if i == 4 {} else {}
    }
  }

  /**
   * SPACE in the mono program, once a marker has been seen and the file
   * could be written, followed by a run of the publisher, publishes the saved
   * pose: translation (tx, ty, 0) verbatim and the rotation `setRPY` gives for
   * its angles, from `map` to `camera_init`.
   */
  lemma SavedPoseIsPublished<F>(s: MainLoop.LoopState<F>, codec: NumberText<F>,
                                setRPY: (F, F, F) -> PosePublisher.Quaternion<F>, now: PosePublisher.Time)
    requires MainLoop.Inv(s, codec.zero) && s.canReset
    requires RoundTrips(codec, s.pose.tx) && RoundTrips(codec, s.pose.ty) && RoundTrips(codec, s.pose.tz)
    requires RoundTrips(codec, s.pose.roll) && RoundTrips(codec, s.pose.pitch) && RoundTrips(codec, s.pose.yaw)
    ensures var saved := MainLoop.KeyStep(s, codec, ' ', true);
      var read := PosePublisher.PoseFromFile(codec, saved.files, PosePublisher.FileName);
      var m := PosePublisher.BuildStaticTransform(read, setRPY, now);
      && m.header == PosePublisher.Header(now, "map") && m.childFrameId == "camera_init"
      && m.transform.translation ==
           PosePublisher.Vector3(PosePublisher.Set(s.pose.tx), PosePublisher.Set(s.pose.ty),
                                 PosePublisher.Set(codec.zero))
      && m.transform.rotation == PosePublisher.Set(setRPY(s.pose.roll, s.pose.pitch, s.pose.yaw))
  {
    MainLoop.SpaceSavesPose(s, codec, true);
    PoseLineReadsBack(codec, s.pose, s.files);
  }
}

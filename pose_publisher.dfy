/**
 * The publish_aruco_pose node: it reads the six pose values from
 * `robot_aruco_pose.txt` and publishes them once as a static transform from
 * `map` to `camera_init`.
 */
module PosePublisher {
  import opened Wrappers
  import opened Text

  /**
   * A double member of an `ArucoPose` that lives on the stack: `Unset` until
   * something is stored in it, since the struct is never initialised.
   */
  datatype Field<F> = Unset | Set(value: F)

  datatype ArucoPose<F> = ArucoPose(tx: Field<F>, ty: Field<F>, tz: Field<F>,
                                    roll: Field<F>, pitch: Field<F>, yaw: Field<F>)

  function Uninitialised<F>(): ArucoPose<F> {
    ArucoPose(Unset, Unset, Unset, Unset, Unset, Unset)
  }

  const FileName: string := "robot_aruco_pose.txt"

  function FailedToOpen(filename: string): string {
    "Failed to open file: " + filename
  }

  function NodeName(): string { "aruco_static_tf_broadcaster" }

  // ---------------------------------------------------------------------
  // Reading the pose

  /**
   * One `>>` into a double, on the words still to be read: a failed stream
   * extracts nothing; at the end of the input the stream fails and the field
   * keeps its value; a word that is a number is stored; any other word stores
   * zero and fails the stream.
   */
  function ExtractStep<F>(codec: NumberText<F>, words: seq<string>, failed: bool, current: Field<F>)
    : (Field<F>, seq<string>, bool)
  {
    if failed || words == [] then (current, words, true)
    else match codec.parse(words[0])
      case Some(x) => (Set(x), words[1..], false)
      case None => (Set(codec.zero), words[1..], true)
  }

  /** The values `n` chained extractions store into fields that were never set. */
  function ReadFields<F>(codec: NumberText<F>, words: seq<string>, failed: bool, n: nat): (fs: seq<Field<F>>)
    ensures |fs| == n
    decreases n
  {
    if n == 0 then []
    else
      var (v, rest, f) := ExtractStep(codec, words, failed, Unset);
      [v] + ReadFields(codec, rest, f, n - 1)
  }

  lemma ReadFieldsStep<F>(codec: NumberText<F>, words: seq<string>, failed: bool, n: nat)
    ensures var (v, rest, f) := ExtractStep(codec, words, failed, Unset);
      ReadFields(codec, words, failed, n + 1) == [v] + ReadFields(codec, rest, f, n)
  {
  }

  /** `file >> pose.tx >> ... >> pose.yaw` on a fresh stream, written out extraction by extraction. */
  function ChainedPose<F>(codec: NumberText<F>, words: seq<string>): ArucoPose<F> {
    var tx := ExtractStep(codec, words, false, Unset);
    var ty := ExtractStep(codec, tx.1, tx.2, Unset);
    var tz := ExtractStep(codec, ty.1, ty.2, Unset);
    var roll := ExtractStep(codec, tz.1, tz.2, Unset);
    var pitch := ExtractStep(codec, roll.1, roll.2, Unset);
    var yaw := ExtractStep(codec, pitch.1, pitch.2, Unset);
    ArucoPose(tx.0, ty.0, tz.0, roll.0, pitch.0, yaw.0)
  }

  lemma ChainedExtractions<F>(codec: NumberText<F>, words: seq<string>)
    ensures ChainedPose(codec, words) == PoseOf(ReadFields(codec, words, false, 6))
  {
    var tx := ExtractStep(codec, words, false, Unset);
    var ty := ExtractStep(codec, tx.1, tx.2, Unset);
    var tz := ExtractStep(codec, ty.1, ty.2, Unset);
    var roll := ExtractStep(codec, tz.1, tz.2, Unset);
    var pitch := ExtractStep(codec, roll.1, roll.2, Unset);
    ReadFieldsStep(codec, words, false, 5);
    ReadFieldsStep(codec, tx.1, tx.2, 4);
    ReadFieldsStep(codec, ty.1, ty.2, 3);
    ReadFieldsStep(codec, tz.1, tz.2, 2);
    ReadFieldsStep(codec, roll.1, roll.2, 1);
    ReadFieldsStep(codec, pitch.1, pitch.2, 0);
  }

  function PoseOf<F>(fs: seq<Field<F>>): ArucoPose<F>
    requires |fs| == 6
  {
    ArucoPose(fs[0], fs[1], fs[2], fs[3], fs[4], fs[5])
  }

  /** The pose `readPoseFromFile` returns for the file as it is on disk. */
  function PoseFromFile<F>(codec: NumberText<F>, fs: FileSystem, filename: string): ArucoPose<F> {
    if filename in fs then PoseOf(ReadFields(codec, Tokens(fs[filename]), false, 6))
    else Uninitialised()
  }

  function Unsets<F>(n: nat): (fs: seq<Field<F>>)
    ensures |fs| == n && forall i :: 0 <= i < n ==> fs[i] == Unset
  {
    if n == 0 then [] else [Unset] + Unsets(n - 1)
  }

  /** The stream a file is opened as, seen word by word. */
  class InputStream {
    var rest: seq<string>
    var failed: bool

    constructor (text: string)
      ensures rest == Tokens(text) && !failed
    {
      rest := Tokens(text);
      failed := false;
    }

    method Extract<F>(codec: NumberText<F>, current: Field<F>) returns (v: Field<F>)
      modifies this
      ensures var e := ExtractStep(codec, old(rest), old(failed), current); v == e.0 && rest == e.1 && failed == e.2
    {
      if failed || rest == [] {
        v := current;
        failed := true;
      } else {
        match codec.parse(rest[0]) {
          case Some(x) =>
            v := Set(x);
            rest := rest[1..];
          case None =>
            v := Set(codec.zero);
            rest := rest[1..];
            failed := true;
        }
      }
    }
  }

  /** `readPoseFromFile`: the returned pose, and what goes to standard error. */
  method ReadPoseFromFile<F>(codec: NumberText<F>, fs: FileSystem, filename: string)
    returns (pose: ArucoPose<F>, errors: seq<string>)
    ensures pose == PoseFromFile(codec, fs, filename)
    ensures errors == if filename in fs then [] else [FailedToOpen(filename)]
  {
    pose := Uninitialised();
    if filename in fs {
      var file := new InputStream(fs[filename]);
      var v := file.Extract(codec, pose.tx);
      pose := pose.(tx := v);
      v := file.Extract(codec, pose.ty);
      pose := pose.(ty := v);
      v := file.Extract(codec, pose.tz);
      pose := pose.(tz := v);
      v := file.Extract(codec, pose.roll);
      pose := pose.(roll := v);
      v := file.Extract(codec, pose.pitch);
      pose := pose.(pitch := v);
      v := file.Extract(codec, pose.yaw);
      pose := pose.(yaw := v);
      ChainedExtractions(codec, Tokens(fs[filename]));
      errors := [];
    } else {
      errors := [FailedToOpen(filename)];
    }
  }

  // ---------------------------------------------------------------------
  // Properties of reading

  /** Words that are all numbers go, in order, into the fields. */
  lemma {:induction false} ReadFieldsInOrder<F>(codec: NumberText<F>, words: seq<string>, xs: seq<F>)
    requires |xs| <= |words|
    requires forall i :: 0 <= i < |xs| ==> codec.parse(words[i]) == Some(xs[i])
    ensures forall i :: 0 <= i < |xs| ==> ReadFields(codec, words, false, |xs|)[i] == Set(xs[i])
  {
    if xs != [] {
      assert codec.parse(words[0]) == Some(xs[0]);
      ReadFieldsInOrder(codec, words[1..], xs[1..]);
      var r := ReadFields(codec, words[1..], false, |xs| - 1);
      assert ReadFields(codec, words, false, |xs|) == [Set(xs[0])] + r;
    }
  }

  /** Once the stream has failed, no later field is assigned. */
  lemma {:induction false} FailedStreamAssignsNothing<F>(codec: NumberText<F>, words: seq<string>, n: nat)
    ensures ReadFields(codec, words, true, n) == Unsets(n)
  {
    if n > 0 {
      FailedStreamAssignsNothing(codec, words, n - 1);
    }
  }

  /** At the end of the input the stream fails and the remaining fields stay unassigned. */
  lemma EndOfInputAssignsNothing<F>(codec: NumberText<F>, n: nat)
    ensures ReadFields(codec, [], false, n) == Unsets(n)
  {
    if n > 0 {
      FailedStreamAssignsNothing(codec, [], n - 1);
    }
  }

  /** A word that is not a number stores zero, and no later field is assigned. */
  lemma NonNumberStoresZeroThenStops<F>(codec: NumberText<F>, words: seq<string>, n: nat)
    requires n > 0 && words != [] && codec.parse(words[0]).None?
    ensures ReadFields(codec, words, false, n) == [Set(codec.zero)] + Unsets(n - 1)
  {
    FailedStreamAssignsNothing(codec, words[1..], n - 1);
  }

  /** An unopened file leaves every field unassigned and reports the file name. */
  lemma UnopenedFileGivesUninitialisedPose<F>(codec: NumberText<F>, fs: FileSystem, filename: string)
    requires filename !in fs
    ensures PoseFromFile(codec, fs, filename) == Uninitialised()
  {
  }

  /** Six numbers in the file, whatever follows them, are the pose's six fields in order. */
  lemma PoseFromSixNumbers<F>(codec: NumberText<F>, fs: FileSystem, filename: string, xs: seq<F>)
    requires filename in fs && |xs| == 6 && |Tokens(fs[filename])| >= 6
    requires forall i :: 0 <= i < 6 ==> codec.parse(Tokens(fs[filename])[i]) == Some(xs[i])
    ensures PoseFromFile(codec, fs, filename) ==
      ArucoPose(Set(xs[0]), Set(xs[1]), Set(xs[2]), Set(xs[3]), Set(xs[4]), Set(xs[5]))
  {
    ReadFieldsInOrder(codec, Tokens(fs[filename]), xs);
  }

  // ---------------------------------------------------------------------
  // The published message

  /** `builtin_interfaces::msg::Time`, what `now()` returns. */
  datatype Time = Time(sec: int, nanosec: nat)

  datatype Header = Header(stamp: Time, frameId: string)

  datatype Vector3<F> = Vector3(x: Field<F>, y: Field<F>, z: Field<F>)

  /** The components `x()`, `y()`, `z()`, `w()` of a `tf2::Quaternion`. */
  datatype Quaternion<F> = Quaternion(x: F, y: F, z: F, w: F)

  /** The rotation is `Unset` when it was computed from an angle that was never assigned. */
  datatype TransformData<F> = TransformData(translation: Vector3<F>, rotation: Field<Quaternion<F>>)

  datatype TransformStamped<F> = TransformStamped(header: Header, childFrameId: string, transform: TransformData<F>)

  /** The message the publisher's constructor fills in, with `setRPY` as a parameter. */
  function BuildStaticTransform<F>(pose: ArucoPose<F>, setRPY: (F, F, F) -> Quaternion<F>, stamp: Time)
    : TransformStamped<F>
  {
    var rotation :=
      if pose.roll.Set? && pose.pitch.Set? && pose.yaw.Set?
      then Set(setRPY(pose.roll.value, pose.pitch.value, pose.yaw.value))
      else Unset;
    TransformStamped(Header(stamp, "map"), "camera_init",
                     TransformData(Vector3(pose.tx, pose.ty, pose.tz), rotation))
  }

  /** The frames are fixed, the stamp is the given time and the translation is the pose's, verbatim. */
  lemma StaticTransformFrames<F>(pose: ArucoPose<F>, setRPY: (F, F, F) -> Quaternion<F>, stamp: Time)
    ensures var m := BuildStaticTransform(pose, setRPY, stamp);
      && m.header.frameId == "map" && m.childFrameId == "camera_init" && m.header.stamp == stamp
      && m.transform.translation.x == pose.tx
      && m.transform.translation.y == pose.ty
      && m.transform.translation.z == pose.tz
  {
  }

  /** With the angles read, the rotation is exactly what `setRPY` gives for roll, pitch and yaw. */
  lemma StaticTransformRotation<F>(pose: ArucoPose<F>, setRPY: (F, F, F) -> Quaternion<F>, stamp: Time)
    requires pose.roll.Set? && pose.pitch.Set? && pose.yaw.Set?
    ensures BuildStaticTransform(pose, setRPY, stamp).transform.rotation ==
      Set(setRPY(pose.roll.value, pose.pitch.value, pose.yaw.value))
  {
  }

  /** Roll, pitch and yaw affect the rotation and nothing else in the message. */
  lemma AnglesAffectOnlyRotation<F>(p: ArucoPose<F>, q: ArucoPose<F>, setRPY: (F, F, F) -> Quaternion<F>, stamp: Time)
    requires p.tx == q.tx && p.ty == q.ty && p.tz == q.tz
    ensures var m := BuildStaticTransform(p, setRPY, stamp);
      var n := BuildStaticTransform(q, setRPY, stamp);
      m.(transform := m.transform.(rotation := Unset)) == n.(transform := n.transform.(rotation := Unset))
  {
  }

  /** The translation affects nothing but the translation. */
  lemma TranslationAffectsOnlyTranslation<F>(p: ArucoPose<F>, q: ArucoPose<F>, setRPY: (F, F, F) -> Quaternion<F>, stamp: Time)
    requires p.roll == q.roll && p.pitch == q.pitch && p.yaw == q.yaw
    ensures var m := BuildStaticTransform(p, setRPY, stamp);
      var n := BuildStaticTransform(q, setRPY, stamp);
      m.header == n.header && m.childFrameId == n.childFrameId && m.transform.rotation == n.transform.rotation
  {
  }

  // ---------------------------------------------------------------------
  // The node

  /** `tf2_ros::StaticTransformBroadcaster`, seen through the messages it has been given. */
  class StaticTransformBroadcaster<F> {
    var sent: seq<TransformStamped<F>>

    constructor ()
      ensures sent == []
    {
      sent := [];
    }

    method SendTransform(t: TransformStamped<F>)
      modifies this
      ensures sent == old(sent) + [t]
    {
      sent := sent + [t];
    }
  }

  class ArucoStaticTFPublisher<F> {
    const name: string
    const broadcaster: StaticTransformBroadcaster<F>

    /** Building the node sends exactly one transform: the one built from the pose. */
    constructor (pose: ArucoPose<F>, setRPY: (F, F, F) -> Quaternion<F>, now: Time)
      ensures name == NodeName() && fresh(broadcaster)
      ensures broadcaster.sent == [BuildStaticTransform(pose, setRPY, now)]
    {
      name := NodeName();
      var b := new StaticTransformBroadcaster<F>();
      var staticTransform := BuildStaticTransform(pose, setRPY, now);
      b.SendTransform(staticTransform);
      broadcaster := b;
    }
  }

  /** The node's `main`, up to spinning: read the pose file, then build the node. */
  method PublisherMain<F>(codec: NumberText<F>, setRPY: (F, F, F) -> Quaternion<F>, fs: FileSystem, now: Time)
    returns (node: ArucoStaticTFPublisher<F>, errors: seq<string>)
    ensures fresh(node) && fresh(node.broadcaster)
    ensures node.broadcaster.sent == [BuildStaticTransform(PoseFromFile(codec, fs, FileName), setRPY, now)]
    ensures errors == if FileName in fs then [] else [FailedToOpen(FileName)]
  {
    var pose;
    pose, errors := ReadPoseFromFile(codec, fs, FileName);
    node := new ArucoStaticTFPublisher(pose, setRPY, now);
  }
}

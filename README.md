# ArUco relocalisation and static pose publishing, in Dafny

The repository has two programs.

- **mono** (`mono/src/main.cpp`) runs a stereo camera and detects ArUco
  markers. It reads an optional table of marker world poses, picks the
  nearest marker in each frame and resets the camera tracking to the pose it
  gives. It also handles a few keys. SPACE saves the current pose to
  `robot_aruco_pose.txt`.
- **publish_aruco_pose** (`publish_aruco_pose/src/publish_aruco_pose.cpp`)
  reads that file and publishes its six values once, as a static transform
  from `map` to `camera_init`.

This project models the discrete logic of both programs:

- `ArucoTable` models the transform-table reader.
- `CommandLine` models the command-line classification.
- `MainLoop` models the decisions of the main loop: the nearest marker, the
  automatic reset, the keys and the pose line written on SPACE.
- `PosePublisher` models the pose reader and the message the publisher
  sends.
- `PoseHandoff` connects the writer to the reader.
- `Text` models the C++ text behaviour both programs rely on:
  `operator>>` into a word, `std::getline`, `std::string::find` and
  space-separated `operator<<`.

Floating-point values are a type parameter `F`, apart from the marker
distances, which are `real`. Values of type `F` are never inspected. They are
only converted to text and back, through function-valued parameters:
`Converters` stands for `std::stoi`/`std::stof`, and `NumberText` for the
stream's `<<` on the mono program's floats and `>>` on the publisher's
doubles. Files are a map from name to contents, and
an absent name is a file that cannot be opened.

The models follow the code's own form:

- `readArucoTransforms` is a `while` loop over the lines. Its invariant
  relates the map to `TableOf` of the lines read so far.
- `parse_args` returns the new values of its reference parameters.
- The nearest-marker search is a `for` loop proved against `NearestIndex`.
- The loop variables are the fields of the class `MainLoop.MainLoop`. Each of
  its methods is proved against a step function on `LoopState`.
- `readPoseFromFile` performs six extractions on an `InputStream` object.

On the pose reader's edge cases the model follows the code.

- An unopened pose file leaves every field unassigned (`Unset`), because the
  `ArucoPose` on the stack is never initialised.
- A word that is not a number stores zero in its field and fails the stream,
  so no later field is assigned.
- At the end of the input the field keeps its previous value, which for a
  fresh struct is unassigned.

## Model

| member | source | states |
|---|---|---|
| ArucoTable.ReadArucoTransforms | mono/src/main.cpp:49-101 | the map read equals `ReadTransforms` of the file, which is the table of the lines after the first; a file that cannot be opened gives the empty map and exactly one "could not open" message, and an opened one gives no message |
| ArucoTable.ConvertLine | mono/src/main.cpp:64-96 | one pass of the read loop: empty and `#` lines, lines with fewer than eight words, and lines whose `stoi`/`stof` conversion fails give no entry; otherwise the entry is the id and transform of the first eight words |
| ArucoTable.SkippedLinesGiveNoEntry | mono/src/main.cpp:64-66 | an empty line or one starting with `#` gives no entry |
| ArucoTable.ParseLineAccepts | mono/src/main.cpp:68-96 | a line is accepted if and only if it is not skipped, has at least eight words and its first eight convert; the id comes from word 0 and tx, ty, tz, qx, qy, qz, qw from words 1 to 7, in that order |
| ArucoTable.OnlyFirstEightWordsMatter | mono/src/main.cpp:71-74 | two lines that agree on their first eight words give the same entry, so words after the eighth are ignored |
| ArucoTable.LineWithoutEntryChangesNothing | mono/src/main.cpp:62-96 | removing a line that gives no entry, anywhere in the body, leaves the table unchanged |
| ArucoTable.KeysAreAcceptedIds | mono/src/main.cpp:92-96 | an id is a key of the table if and only if some accepted line gives that id |
| ArucoTable.AcceptedInAppend | mono/src/main.cpp:62 | some line of `prefix + [last]` gives the id if and only if some line of `prefix` does or `last` does |
| ArucoTable.InsertKeys | mono/src/main.cpp:96 | storing an entry adds exactly its id to the keys |
| ArucoTable.LastAcceptedLineWins | mono/src/main.cpp:96 | for a repeated id, the table holds the transform of the last accepted line with that id |
| ArucoTable.HeaderIsDiscarded | mono/src/main.cpp:60 | for a file `header` followed by newline-terminated lines, the table is that of the lines after the header, whatever the header holds |
| ArucoTable.HeaderOnlyGivesEmptyTable | mono/src/main.cpp:60-62 | a file with at most one line gives the empty table |
| CommandLine.DigitRun | mono/src/main.cpp:140 | the digit run that a `%u` conversion consumes is all digits and is followed by a non-digit or the end of the input |
| CommandLine.Scan | mono/src/main.cpp:140-147 | `sscanf` stores at most one value per conversion directive, each reduced into the range of `unsigned int` |
| CommandLine.ScanPrefix | mono/src/main.cpp:140-147 | a longer format stores the values of the shorter one first, and no more when the shorter one stopped early |
| CommandLine.IpPortMatchImpliesIpMatch | mono/src/main.cpp:140-147 | an argument with five matches of the address-and-port format has four matches of the address-only format |
| CommandLine.DigitChar | mono/src/main.cpp:143 | a digit's character is a decimal digit that denotes it |
| CommandLine.Decimal | mono/src/main.cpp:143 | `to_string` of an unsigned value is a non-empty string of digits that denotes the value, with no leading zero, so it is the canonical numeral |
| CommandLine.DigitRunOfDigits | mono/src/main.cpp:140-147 | the digit run of a numeral followed by a non-digit is the whole numeral |
| CommandLine.ScanDecimal | mono/src/main.cpp:140-147 | scanning an integer from a rendered number followed by a non-digit gives the number and the rest |
| CommandLine.ScanDecimalDirective | mono/src/main.cpp:140-147 | a rendered number in range matches a conversion directive and is stored unchanged |
| CommandLine.ScanLiteral | mono/src/main.cpp:140-147 | a literal character in the format matches that character in the input |
| CommandLine.DottedQuadScansBack | mono/src/main.cpp:143-147 | the address built from four scanned numbers scans back to those four numbers with the address-only format |
| CommandLine.Classify | mono/src/main.cpp:117-188 | no argument exactly when `argc <= 1`; SVO only when `argv[1]` contains `.svo`; a transform table only when it contains `.txt` and not `.svo`; the port form only with five scanned values |
| CommandLine.FirstMatchIsFirst | mono/src/main.cpp:119-182 | the first rule whose test holds decides, whatever the later rules say |
| CommandLine.FirstMatchNone | mono/src/main.cpp:184-187 | when no rule holds, the fallback is chosen |
| CommandLine.ClassifyIsFirstMatch | mono/src/main.cpp:117-188 | the if/else chain chooses exactly what the first holding rule of the ordered table selects (`.svo`, `.txt`, address with port, address, HD2K, HD1200, HD1080, HD720, SVGA, VGA), and nothing without an argument |
| CommandLine.FirstMatchFrom | mono/src/main.cpp:119-182 | one step of the first-match search |
| CommandLine.SvgaContainsVga | mono/src/main.cpp:173-182 | every argument containing `SVGA` also contains `VGA` |
| CommandLine.SvgaNeverSelectsVga | mono/src/main.cpp:173-182 | an argument containing `SVGA` never selects VGA |
| CommandLine.IpPortTakesPrecedence | mono/src/main.cpp:140-152 | an argument with five values in the port form selects stream input with a port, even though it also matches the address-only form |
| CommandLine.ParseArgs | mono/src/main.cpp:117-188 | `.svo` sets the SVO path and real-time mode; the port form sets the stream with the rebuilt address and the port; the address form sets the stream with `argv[1]` and no port; a keyword sets only the resolution; `.txt`, no argument or an unrecognised argument leave the parameters unchanged; the transforms are loaded as `TransformsArgument` says |
| CommandLine.TransformsArgument | mono/src/main.cpp:119-134 | a table is loaded only from an argument containing `.txt`: from `argv[2]` only after an SVO first argument, and from `argv[1]` only in the `.txt` branch; a `.txt` first argument always loads, and so does an SVO first argument followed by a `.txt` second one |
| CommandLine.SvoLoadsOnlySecondArgument | mono/src/main.cpp:119-130 | a first argument containing `.svo` selects SVO input, and a table is then loaded if and only if there is a second argument containing `.txt`, and from that argument |
| CommandLine.LoadTransformsArgument | mono/src/main.cpp:127-134 | with no table argument, the transforms and the error output are unchanged; otherwise the transforms are those read from the named file, with the open error when it is missing |
| MainLoop.PoseValues | mono/src/main.cpp:535-536 | the pose has six values in writing order |
| MainLoop.PoseWordsAt | mono/src/main.cpp:535-536 | word `i` of the pose line is value `i` formatted |
| MainLoop.PoseLineWords | mono/src/main.cpp:531-536 | read word by word, the line written for a pose gives the six formatted values tx ty tz roll pitch yaw, in that order |
| MainLoop.NearestIndexProperties | mono/src/main.cpp:339-354 | the best distance is at most `1e9` and at most every distance; with none below `1e9` the previous index is kept; otherwise the index is one of the best distance with every earlier distance strictly larger |
| MainLoop.NearestIndexIsNearest | mono/src/main.cpp:339-354 | the search, started from the index kept since line 282, ends on the first index of the smallest distance below `1e9`, or on the previous index when there is none |
| MainLoop.NearestIndexIgnoresPrevious | mono/src/main.cpp:339-354 | when some distance is below `1e9`, the index kept from the previous frame plays no part |
| MainLoop.NearestIndexStable | mono/src/main.cpp:339-354 | searching again over the same distances ends at the same index |
| MainLoop.SelectNearest | mono/src/main.cpp:339-354 | the loop ends with `NearestIndex` of the distances, which is the nearest index in the sense above |
| MainLoop.StartSatisfiesInv | mono/src/main.cpp:252-282 | the initial loop variables satisfy the invariant |
| MainLoop.IterationKeepsInv | mono/src/main.cpp:285-566 | one pass of the loop keeps the invariant: the index is never negative, and while a reset is possible the pose's height is zero |
| MainLoop.FrameKeepsInv | mono/src/main.cpp:332-500 | a processed frame keeps the invariant |
| MainLoop.KeyKeepsInv | mono/src/main.cpp:514-566 | the key handling keeps the invariant |
| MainLoop.AutoResetCondition | mono/src/main.cpp:332-500 | the new state in full: with markers, the index of the nearest marker, `can_reset` set and its pose with the height cleared; the tracking is also reset to that marker's pose, its id recorded and `has_reset` set, exactly when its id differs from the last reset's and it passes the size test; everything else, including the key flags, files and errors, is unchanged; without markers only `can_reset` is cleared and the height zeroed |
| MainLoop.NoSecondAutoResetForSameMarker | mono/src/main.cpp:469-477 | the same markers seen in two frames in a row reset the tracking at most once |
| MainLoop.PauseKeyToggles | mono/src/main.cpp:546-549 | `p`/`P` toggles the pause and changes nothing else |
| MainLoop.TrackingKeySelectsCameraTracking | mono/src/main.cpp:551-554 | `z`/`Z` sets camera tracking display and changes nothing else |
| MainLoop.ArucoKeySelectsMarkerPose | mono/src/main.cpp:563-566 | `a`/`A` clears camera tracking display and changes nothing else |
| MainLoop.PathKeyToggles | mono/src/main.cpp:556-560 | `d`/`D` toggles the path display and changes nothing else |
| MainLoop.SpaceWithoutMarkerDoesNothing | mono/src/main.cpp:517 | SPACE while no reset is possible changes nothing |
| MainLoop.OtherKeysChangeNothing | mono/src/main.cpp:514-566 | a key other than `pPzZaAdD` and space changes nothing |
| MainLoop.PauseTwiceRestores | mono/src/main.cpp:546-549 | pressing `p` twice restores the whole state |
| MainLoop.SpaceSavesPose | mono/src/main.cpp:517-544 | the new state in full: SPACE while a reset is possible resets the tracking to the current pose and sets `has_reset`; the pose file then holds the pose line, or, when it cannot be opened, the save error is reported; every other variable (the pause, view and path flags, `can_reset`, the last reset's id, the index and the pose) is unchanged; the saved pose's height is zero |
| MainLoop.MainLoop.constructor | mono/src/main.cpp:252-282 | the loop variables start with their initial values |
| MainLoop.MainLoop.ProcessFrame | mono/src/main.cpp:332-500 | the new state is the frame step of the old one, and the invariant is kept |
| MainLoop.MainLoop.SelectNearestMarker | mono/src/main.cpp:332-402 | the new state is that of the detection branch: nearest index, its pose and `can_reset` |
| MainLoop.MainLoop.AutoReset | mono/src/main.cpp:469-477 | the new state is that of the auto-reset guard |
| MainLoop.MainLoop.HandleKey | mono/src/main.cpp:514-566 | the new state is the key step of the old one, and the invariant is kept |
| MainLoop.MainLoop.SwitchViews | mono/src/main.cpp:546-566 | the new state is that of the pause and display key tests, in source order |
| MainLoop.MainLoop.ResetOnSpace | mono/src/main.cpp:517-544 | the new state is that of the SPACE test |
| MainLoop.MainLoop.Iterate | mono/src/main.cpp:285-566 | one pass: a frame is processed only when not paused and the grab succeeded, then the key is handled; the invariant is kept |
| PosePublisher.ReadFields | publish_aruco_pose/src/publish_aruco_pose.cpp:25 | `n` chained extractions give `n` field values |
| PosePublisher.ReadFieldsStep | publish_aruco_pose/src/publish_aruco_pose.cpp:25 | the first extraction comes first and the rest read on from its stream state |
| PosePublisher.ChainedExtractions | publish_aruco_pose/src/publish_aruco_pose.cpp:25 | the six chained extractions of the source statement give the six fields of the recursive reading |
| PosePublisher.Unsets | publish_aruco_pose/src/publish_aruco_pose.cpp:22 | `n` unassigned fields |
| PosePublisher.InputStream.constructor | publish_aruco_pose/src/publish_aruco_pose.cpp:23 | an opened file stream has all the file's words to read and has not failed |
| PosePublisher.InputStream.Extract | publish_aruco_pose/src/publish_aruco_pose.cpp:25 | one `>>` into a double: a failed stream or the end of input keeps the field and fails; a number is stored; another word stores zero and fails the stream |
| PosePublisher.ReadPoseFromFile | publish_aruco_pose/src/publish_aruco_pose.cpp:21-34 | the returned pose is the six extractions from the file's words, or the uninitialised pose with a "Failed to open file" message naming the file when it cannot be opened |
| PosePublisher.ReadFieldsInOrder | publish_aruco_pose/src/publish_aruco_pose.cpp:25 | words that are numbers go, in order, into the fields |
| PosePublisher.FailedStreamAssignsNothing | publish_aruco_pose/src/publish_aruco_pose.cpp:25 | once the stream has failed, no field is assigned |
| PosePublisher.EndOfInputAssignsNothing | publish_aruco_pose/src/publish_aruco_pose.cpp:25 | at the end of the input no remaining field is assigned |
| PosePublisher.NonNumberStoresZeroThenStops | publish_aruco_pose/src/publish_aruco_pose.cpp:25 | a word that is not a number stores zero and no later field is assigned |
| PosePublisher.UnopenedFileGivesUninitialisedPose | publish_aruco_pose/src/publish_aruco_pose.cpp:22-33 | when the file cannot be opened no field of the pose is assigned |
| PosePublisher.PoseFromSixNumbers | publish_aruco_pose/src/publish_aruco_pose.cpp:25 | six numbers at the start of the file are tx, ty, tz, roll, pitch and yaw in that order, whatever follows |
| PosePublisher.StaticTransformFrames | publish_aruco_pose/src/publish_aruco_pose.cpp:44-52 | the message is stamped with the given time, goes from `map` to `camera_init` and has the pose's tx, ty, tz as its translation verbatim |
| PosePublisher.StaticTransformRotation | publish_aruco_pose/src/publish_aruco_pose.cpp:55-60 | with the three angles read, the rotation is exactly `setRPY(roll, pitch, yaw)` |
| PosePublisher.AnglesAffectOnlyRotation | publish_aruco_pose/src/publish_aruco_pose.cpp:44-60 | two poses with the same translation give messages that differ at most in the rotation |
| PosePublisher.TranslationAffectsOnlyTranslation | publish_aruco_pose/src/publish_aruco_pose.cpp:44-60 | two poses with the same angles give messages with the same header, child frame and rotation |
| PosePublisher.StaticTransformBroadcaster.constructor | publish_aruco_pose/src/publish_aruco_pose.cpp:41 | a new broadcaster has sent nothing |
| PosePublisher.StaticTransformBroadcaster.SendTransform | publish_aruco_pose/src/publish_aruco_pose.cpp:63 | sending appends the message to what was sent |
| PosePublisher.ArucoStaticTFPublisher.constructor | publish_aruco_pose/src/publish_aruco_pose.cpp:38-67 | the node is named `aruco_static_tf_broadcaster` and its new broadcaster has sent exactly one message, the one built from the pose |
| PosePublisher.PublisherMain | publish_aruco_pose/src/publish_aruco_pose.cpp:73-82 | the node sends exactly the message built from the pose read from `robot_aruco_pose.txt`, and the open error is reported when that file is missing |
| PoseHandoff.SameFileName | publish_aruco_pose/src/publish_aruco_pose.cpp:78 | the reader's file name is the one the writer uses (mono/src/main.cpp line 527) |
| PoseHandoff.PoseLineReadsBack | publish_aruco_pose/src/publish_aruco_pose.cpp:25 | reading a file holding the line the writer produces (mono/src/main.cpp lines 535-536) sets all six fields to the written values, in their own fields |
| PoseHandoff.WordParsesBack | publish_aruco_pose/src/publish_aruco_pose.cpp:25 | each written word parses back to the value it was formatted from |
| PoseHandoff.SavedPoseIsPublished | publish_aruco_pose/src/publish_aruco_pose.cpp:38-63 | when SPACE is pressed while `can_reset` holds, the pose file opens and each of the six saved values survives `format` then `parse` (`RoundTrips`), SPACE in the mono program, followed by a run of the publisher, publishes from `map` to `camera_init` the translation (tx, ty, 0) of the saved pose and the rotation `setRPY` gives for its angles |
| Text.SkipSpace | mono/src/main.cpp:71 | skipping whitespace leaves a suffix that is empty or starts with a non-space, after only spaces |
| Text.RunLength | mono/src/main.cpp:71 | the word taken is a maximal run of non-space characters |
| Text.Tokens | mono/src/main.cpp:71 | every extracted word is non-empty and holds no whitespace |
| Text.RunLengthOfToken | mono/src/main.cpp:71 | a word followed by whitespace is taken whole |
| Text.TokensAfterSpace | publish_aruco_pose/src/publish_aruco_pose.cpp:25 | a leading space does not change the words |
| Text.TokensOfWordThen | publish_aruco_pose/src/publish_aruco_pose.cpp:25 | a word followed by whitespace is extracted first, then the words of the rest |
| Text.TokensOfJoinSpaced | mono/src/main.cpp:535-536 | splitting words joined by single spaces gives back those words |
| Text.LineLength | mono/src/main.cpp:62 | a line ends at the first newline or at the end of the text |
| Text.Lines | mono/src/main.cpp:60-62 | the lines `getline` delivers hold no newline |
| Text.LineLengthOfLine | mono/src/main.cpp:62 | a line followed by a newline has its own length as line length |
| Text.LinesOfTerminated | mono/src/main.cpp:60-62 | `getline` reads back exactly the lines of a newline-terminated file |

## Left out

- The camera SDK, OpenCV detection and drawing, the OpenGL viewer and the ROS runtime are foreign calls. The model takes their results as parameters (`grabbed`, the detected `Marker`s, the key read, whether a file opens, `now`).
- The `std::cout` progress messages are left out. The three `std::cerr` messages of the modelled code are modelled as the `errors` output (`CouldNotOpen`, `SaveFailed`, `FailedToOpen`).
- The distance of each marker, `t.norm()` at mono/src/main.cpp line 348, is taken as the given `Marker.distance`, because it is floating-point geometry on the estimated translation. Distances, and the seed `1e9f` of line 339, are exact reals, and the comparison at line 349 is exact. NaN distances (which the source's `>` never selects), infinities and float rounding, including that of the literal `1e9f`, are not modelled.
- Each marker's pose is taken as given (`Marker.pose`). It is the transform algebra at mono/src/main.cpp lines 364-397, including the lookup in the transform table, and that algebra is floating-point geometry inside the SDK.
- `isTagValidForReset` (mono/src/main.cpp lines 103-114) is the boolean `Marker.validForReset`, because it is a float area ratio.
- `resetPositionalTracking` is recorded as the list of poses passed to it (`trackingResets`), because its effect is inside the SDK.
- The loop's exit on `q`/`Q` and `viewer.isAvailable()` (mono/src/main.cpp line 285) are not modelled. `Iterate` is one pass, and the number of passes is up to the caller.
- `viewer.setShowArucoPath` (mono/src/main.cpp line 559) is a viewer call. Only the flag it is given is modelled.
- The display code (mono/src/main.cpp lines 404-409, 414-466 and 480-481) is not modelled. It indexes `rvecs`/`tvecs` with the index kept from an earlier frame after they were resized to one element.
- MainLoop.MainLoop.ProcessFrame requires a defined marker access (`FrameDefined`). When markers are seen and every distance is at least `1e9`, line 364 indexes the detected markers with the kept index, and it is only defined while that index is in range. The model does not cover the undefined case.
- The number formats are left abstract. `operator<<` on a float and `operator>>` into a double are the `format`/`parse` functions of `NumberText`, and the round trip of the pose file is proved for values whose formatted word parses back to them (`RoundTrips`). The six-significant-digit default precision of `operator<<` is not modelled, so values that do not survive it fall outside that lemma.
- PoseHandoff.PoseLineReadsBack / PoseHandoff.SavedPoseIsPublished: one type `F` stands for both the `sl::float3` components the mono program saves (mono/src/main.cpp lines 531-536) and the `double` fields of `ArucoPose` the publisher reads them into (publish_aruco_pose/src/publish_aruco_pose.cpp lines 12-17 and 25). The proved equality of saved and published values therefore holds only up to the float-to-decimal-to-double conversion: `0.1f` is written as `0.1` and read back as the double `0.1`, which is not `0.1f` widened to double.
- `operator>>` into a double is modelled on whole words. A word like `1.5abc`, which the real stream reads as `1.5` before failing on the next extraction, is one unparsable word here. An out-of-range number such as `1e400`, for which libstdc++ stores the largest value of the right sign and fails the stream, cannot be expressed by `parse: string -> Option<F>`. The writer never produces such a word.
- At the end of input the model leaves the field unchanged. That is the library behaviour when the stream's sentry fails, and it is distinguished from the zero stored for a word that does not convert.
- CommandLine.Scan: `strtoul` saturation on overflow is not modelled. Scanned values are reduced modulo 2^32, as an `unsigned int` store does for values that fit in `unsigned long`.
- The conversion of the scanned port to the SDK's port type inside `setFromStream` is not modelled. The port is kept as the scanned `unsigned int` value.
- The `main` of the mono program sets other `InitParameters` fields around the `parse_args` call (mono/src/main.cpp lines 200-207, including `svo_real_time_mode = false` afterwards). They are outside `parse_args` and are not modelled.
- `RCLCPP_INFO` (publish_aruco_pose/src/publish_aruco_pose.cpp lines 64-66) and the "Read pose" output (lines 27-29) are log output.
- `rclcpp::spin` and `shutdown` are left out.
- The node's clock is the `now` parameter.
- `tf2::Quaternion::setRPY` is the uninterpreted parameter `setRPY`.
- An observation rather than a finding: lines 499-500 clear the pose's height every grabbed frame, so the pose saved on SPACE always has `tz` equal to zero (MainLoop.SpaceSavesPose).
- Angle units are not modelled. The angles are abstract values, so MainLoop and PoseHandoff show that the publisher receives the same values that were saved, not that both programs read them in the same unit. The SDK's `getEulerAngles(false)` at mono/src/main.cpp line 532 returns degrees, while `setRPY` takes radians.
- The pose hand-off assumes that both programs run in the same working directory, because `robot_aruco_pose.txt` is a relative name on both sides. The model's single file map stands for that shared directory.

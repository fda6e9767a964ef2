# Movella DOT arm visualisation — a Dafny model

Movella DOT Visualization turns the orientation quaternions streamed by
Movella DOT inertial sensors into a stick-figure arm. Sensors sit on the
upper arm and forearm of one or both arms. The repository contains several
visualisers:

- an offline bicep-curl animation of a four-sensor CSV recording;
- two matrix-based animations calibrated on the first frame (one offline, one live);
- a live two-arm recording screen;
- a GIF animation of two decimated sensor logs;
- a quaternion-trajectory report.

Around these sit the device bookkeeping (selecting, labelling and
connecting sensors, calibrating them, starting measurement, recording a CSV)
and a setup wizard that assigns sensors to body positions.

This project models that core in Dafny over exact `real` arithmetic:

- `Quaternion`: the rotation code shared by every visualiser. It holds W-first
  quaternions, the double-cross-product rotation with its `1e-9` degeneracy
  guard, and the quaternion-to-matrix conversion.
- `QuaternionLaws`: the algebraic laws of that code. The matrix is
  orthogonal, the conjugate gives the transpose, both forms ignore the
  quaternion's scale, the cross-product form equals the matrix form above the
  guard, rotation preserves lengths, and the identity does nothing. The laws
  are built from the `RealIdentities` polynomial identities.
- `ArmChain` and `CalibratedArm`: the forward kinematics every live file
  uses. The shoulder is fixed. Each segment's rest vector is turned by its own
  rotation, or by its calibration delta `R_cur·R_initᵀ`. The joints are
  chained by vector addition. The forearm rotation is never composed through
  the upper arm.
- `BicepCurl` and `BicepCurlCsv`: the bicep-curl animation and its loader.
  This covers the two rotation copies, the W-first to X-first roll, the
  right-arm correction, the per-frame joints, and how CSV rows become four
  quaternion streams.
- `VisualiDump`, `RealtimeVisualizer`, `SplitScreen`, `Animate` and `Graph`:
  the remaining visualisers, one module per source file.
- `DotManager` and `DeviceSetup`: the bookkeeping of `movella_dot_manager.py`
  and `device_setup_app.py`.
- `Text`, `Sequences` and `Wrappers`: split/join, strip and decimal
  formatting of strings, first-index search, and `Option`/`Result`.

Normalising by `‖q‖` only ever occurs inside products of two normalised
components. The model therefore divides those products by the squared norm
`N` and never takes a square root: `‖q‖ < 1e-9` becomes `N < 1e-18`, and
`‖q‖ > 0` becomes `N > 0`.

Choices the code makes that differ between files, and that the model keeps:

- The forearm segment is turned by the forearm's own rotation in every live
  file (`visualize_bicep_curl.py:729-745`, `visualidump.py:223-227`,
  `animate.py:106-115`). Composing it through the upper-arm rotation occurs
  only in commented-out code, so the model is the decoupled form.
- The degeneracy guard of the cross-product rotation is a norm below `1e-9`
  (`visualize_bicep_curl.py:605`).
- The live recording screen keeps a position's previous quaternion when a
  poll carries none for it (`split_screen_app.py:279-290`). Only the CSV
  recorder drops a sample in which some device delivered nothing
  (`movella_dot_manager.py:494-509`).
- The neutral pose is each file's own. The bicep-curl animation and the live
  screen use a T-pose along `∓X`, the calibrated arms hang down `-Y`, and the
  GIF animation hangs the arm down `-Z`.

## Model

| member | source | states |
|---|---|---|
| Quaternion.Rotate | visualize_bicep_curl.py:604-607 | a quaternion whose norm is below `1e-9` (squared norm below `1e-18`) leaves the vector unchanged |
| Quaternion.ToMatrix | visualidump.py:157-169 | the zero quaternion skips normalisation, and the formula on its components is the identity matrix |
| QuaternionLaws.ToMatrixOrthogonal | visualidump.py:172-175 | for every quaternion, including zero, `R·Rᵀ = I` and `Rᵀ·R = I`, so the transpose used as the calibration inverse is exact |
| QuaternionLaws.ToMatrixOrthonormalRows | realtime_visualizer.py:50-62 | with a positive squared norm, the normalised matrix has orthonormal rows |
| QuaternionLaws.ToMatrixConjugate | visualidump.py:174-175 | the matrix of the conjugate quaternion is the transpose of the matrix, so transposing inverts the rotation |
| QuaternionLaws.ToMatrixScaleInvariant | visualidump.py:160-163 | scaling a quaternion by any non-zero `k` gives the same matrix |
| QuaternionLaws.ToMatrixIdentity | realtime_visualizer.py:50-62 | the identity quaternion gives the identity matrix |
| QuaternionLaws.RotateMatchesMatrix | visualize_bicep_curl.py:608-615 | above the degeneracy guard, the cross-product rotation equals multiplying by the rotation matrix of the same quaternion |
| QuaternionLaws.RotatePreservesLength | visualize_bicep_curl.py:613-615 | for every quaternion, degenerate or not, the rotated vector has the squared length of the input |
| QuaternionLaws.RotateConjugateInverse | visualize_bicep_curl.py:719-726 | rotating by a non-degenerate `q` and then by its conjugate restores the vector |
| QuaternionLaws.RotateScaleInvariant | visualize_bicep_curl.py:605-608 | scaling a non-degenerate quaternion (the result still above the guard) does not change the rotation, because the code normalises first |
| QuaternionLaws.RotateIdentity | visualize_bicep_curl.py:604-617 | the identity quaternion leaves every vector where it is |
| QuaternionLaws.TinyQuaternionDisagreement | visualidump.py:160-163 | below the guard the two conversions disagree: for `(0, 1e-10, 0, 0)` the cross-product form returns `v` unchanged, while the matrix still normalises and turns `(0,1,0)` into `(0,-1,0)` |
| ArmChain.Chain | visualize_bicep_curl.py:738-745 | the joints are chained: elbow minus shoulder is the rotated upper-arm segment and hand minus elbow is the rotated forearm segment |
| BicepCurl.FromWXYZ | visualize_bicep_curl.py:605 | reading a row as W-first keeps its squared norm |
| BicepCurl.RotateWXYZ | visualize_bicep_curl.py:592-617 | a W-first row of norm below `1e-9` returns `v` |
| BicepCurl.RotateXYZW | visualize_bicep_curl.py:620-645 | an X-first row of norm below `1e-9` returns `v` |
| BicepCurl.Roll | visualize_bicep_curl.py:663-666 | `np.roll(q, -1)` moves every entry one place left and the first to the end |
| BicepCurl.RollAgreement | visualize_bicep_curl.py:660-666 | rolling a W-first row and rotating it X-first equals rotating it W-first, for every row including degenerate ones |
| BicepCurl.CorrectXYZW | visualize_bicep_curl.py:721-725 | the right-arm correction negates the three vector components and keeps the scalar |
| BicepCurl.CorrectIsConjugate | visualize_bicep_curl.py:719-726 | the corrected row is the conjugate quaternion |
| BicepCurl.CorrectionInverse | visualize_bicep_curl.py:719-726 | for every row, rotating by it and then by its corrected row restores the vector |
| BicepCurl.RotateWXYZIdentity | visualize_bicep_curl.py:604-617 | the row `[1, 0, 0, 0]` leaves every vector unchanged |
| BicepCurl.RotateWXYZScaleInvariant | visualize_bicep_curl.py:605-608 | scaling a row by `k` does not change the rotation while both rows stay above the guard |
| BicepCurl.RotateWXYZPreservesLength | visualize_bicep_curl.py:613-615 | the W-first copy preserves squared length for every row |
| BicepCurl.RotateXYZWPreservesLength | visualize_bicep_curl.py:641-643 | the X-first copy preserves squared length for every row |
| BicepCurl.FramePose | visualize_bicep_curl.py:513-514 | the shoulders are fixed at `(∓0.25, 0, 0)` on every frame |
| BicepCurl.FramePoseSegmentLengths | visualize_bicep_curl.py:507-523 | on every frame the upper arms have squared length `0.4²` and the forearms `0.35²` |
| BicepCurl.FramePoseDependencies | visualize_bicep_curl.py:729-745 | `hand - elbow` depends only on that arm's forearm row, and each arm depends only on its own two rows |
| BicepCurl.RightArmFollowsInverse | visualize_bicep_curl.py:719-736 | turning a right-arm segment back by its uncorrected row gives its T-pose vector, so the right arm follows the inverse rotation |
| BicepCurl.RolledFrame | visualize_bicep_curl.py:663-666 | rolling four 4-component rows gives a frame the joint computation accepts |
| BicepCurl.RolledLeftArm | visualize_bicep_curl.py:663-666 | after the roll, the left arm's joints are the W-first rotations of the loaded rows |
| BicepCurlCsv.ParseAll | visualize_bicep_curl.py:569-572 | a field parses exactly when every comma-separated piece parses, and it yields one number per piece, in order |
| BicepCurlCsv.AddRowAsWritten | visualize_bicep_curl.py:560-576 | stream `k` is extended by exactly field `k` when the row is non-empty and fields `0..k` all parse, and is otherwise unchanged; so an empty row adds nothing, a fully parsing row appends one entry to each stream, and a row that fails at field `k` has already appended the fields before `k` |
| BicepCurlCsv.AddRowAtomic | visualize_bicep_curl.py:573-576 | a row is skipped as a whole unless all four fields parse, so balanced streams stay balanced |
| BicepCurlCsv.FoldAsWritten | visualize_bicep_curl.py:559-576 | folding rows never makes a later stream longer than an earlier one, and only extends the streams |
| BicepCurlCsv.FoldAtomic | visualize_bicep_curl.py:559-576 | folding rows atomically keeps the four streams the same length |
| BicepCurlCsv.LoadAsWritten | visualize_bicep_curl.py:553-557 | an empty file gives no streams; otherwise the header is dropped and the first stream holds at most one entry per data row |
| BicepCurlCsv.LoadAtomic | visualize_bicep_curl.py:553-576 | the corrected loader returns four streams of one length whenever the file is non-empty |
| BicepCurlCsv.ColumnOfLength | visualize_bicep_curl.py:559-572 | when every row parses, each column has one entry per non-empty row |
| BicepCurlCsv.LoadAllParse | visualize_bicep_curl.py:553-572 | when every data row parses: the header is consumed; empty rows add nothing; stream `k` is field `k` of each non-empty row, in order; all four streams have the length of the non-empty data rows |
| BicepCurlCsv.LoadAtomicAgrees | visualize_bicep_curl.py:569-576 | on files whose rows all parse, the corrected loader returns the same streams as the loader as written |
| BicepCurlCsv.AtomicFramesInRange | visualize_bicep_curl.py:669 | with the corrected loader, every animation frame below the first stream's length can be read from all four streams |
| BicepCurlCsv.AnimationPose | visualize_bicep_curl.py:709-745 | frame `i` turns the left arm by the W-first rotation of the loaded rows `i` |
| BicepCurlCsv.ShortRowDesynchronises | visualize_bicep_curl.py:569-576 | a complete row followed by a row with only one field leaves two frames in the first stream and one in the second, so frame 1 cannot be read |
| CalibratedArm.HangingLength | visualidump.py:177-178 | a segment hanging straight down has its length as its norm |
| CalibratedArm.Pose | visualidump.py:223-227 | the shoulder is the origin |
| CalibratedArm.DeltaAtCalibration | visualidump.py:172-175 | the calibration delta of an orientation against itself is exactly the identity, for every quaternion |
| CalibratedArm.DeltaPreservesLength | visualidump.py:219-220 | every calibration delta preserves squared lengths |
| CalibratedArm.PoseAtCalibration | realtime_visualizer.py:103-120 | when every orientation equals its calibration orientation, the arm hangs straight down at `(0,-upper,0)` and `(0,-(upper+forearm),0)` |
| CalibratedArm.PoseSegmentLengths | realtime_visualizer.py:110-120 | both segments keep their configured lengths for all orientations |
| CalibratedArm.PoseDependencies | visualidump.py:223-227 | the elbow depends only on the upper-arm orientations, and `hand - elbow` only on the forearm orientations |
| VisualiDump.Update | visualidump.py:213-227 | the shoulder is drawn at the origin on every frame |
| VisualiDump.FirstFrameHangs | visualidump.py:172-178 | frame 0 shows the elbow at `(0,-0.3,0)` and the wrist at `(0,-0.55,0)`, whatever the first quaternions are |
| VisualiDump.SegmentLengths | visualidump.py:152-153 | on every frame the squared length of `elbow - shoulder` is `0.3²` and that of `wrist - elbow` is `0.25²` |
| VisualiDump.WristOffsetIgnoresUpperArm | visualidump.py:224-227 | `wrist - elbow` is the same for recordings sharing the forearm column, whatever their upper-arm columns |
| RealtimeVisualizer.Init | realtime_visualizer.py:13-34 | a new visualiser has identity current quaternions and no calibration, and keeps the given segment lengths |
| RealtimeVisualizer.Default | realtime_visualizer.py:13 | the default segment lengths are `0.3` and `0.25` |
| RealtimeVisualizer.Calibrate | realtime_visualizer.py:36-41 | calibrating stores both references and sets the flag, overwriting any earlier calibration, and leaves the current quaternions alone |
| RealtimeVisualizer.UpdateQuaternions | realtime_visualizer.py:44-48 | only the current quaternions change; the calibration state and lengths are kept |
| RealtimeVisualizer.UpdateFrame | realtime_visualizer.py:90-120 | no pose before calibration; afterwards the shoulder is at the origin, and the arm hangs straight down while nothing has moved |
| RealtimeVisualizer.FrameSegmentLengths | realtime_visualizer.py:110-120 | every drawn segment has its configured length |
| RealtimeVisualizer.ElbowIgnoresForearm | realtime_visualizer.py:110-114 | the elbow of a calibrated visualiser does not depend on the forearm quaternion |
| RealtimeVisualizer.ElbowAtUpperCalibration | realtime_visualizer.py:110-114 | while the upper arm sits at its calibration orientation, the elbow is `(0,-upper,0)` |
| RealtimeVisualizer.SimulationTick | realtime_visualizer.py:172-182 | one simulated tick holds the upper arm at its calibration orientation, stores the forearm sample, and draws the elbow at `(0,-upper,0)` |
| RealtimeVisualizer.Simulate | realtime_visualizer.py:164-192 | the built-in simulation calibrates on the identity and draws the elbow at `(0,-0.3,0)` on every frame |
| SplitScreen.RotateVector | split_screen_app.py:141-154 | the screen's rotation returns `v` for a quaternion of norm below `1e-9` |
| SplitScreen.RotateVectorAgrees | split_screen_app.py:141-154 | the screen's rotation equals the bicep-curl W-first copy on every row |
| SplitScreen.InitialBuffer | split_screen_app.py:23-28 | with a manager, every mapped position starts at the identity quaternion; without one the buffer is empty |
| SplitScreen.CollectCycle | split_screen_app.py:279-290 | a poll with packets overwrites exactly the mapped positions whose packets carry an orientation, keeps every other position, and adds one to the frame count; a poll without packets changes nothing |
| SplitScreen.CountAvailable | split_screen_app.py:279-290 | the number of polls with packets is at most the number of polls |
| SplitScreen.Collect | split_screen_app.py:276-292 | after a run of polls the frame count has grown by exactly the number of polls with packets; a mapped position holds the orientation of the last poll with packets that carried one for it, and every other position keeps its starting entry or absence |
| SplitScreen.ArmIfMapped | split_screen_app.py:329-333 | an arm is posed exactly when both its positions are mapped and buffered, and then it hangs from its shoulder |
| SplitScreen.UpdateVisualization | split_screen_app.py:294-370 | nothing is drawn while not recording; otherwise each arm is drawn exactly when its two positions are mapped and buffered, with the shoulders at `(∓0.175, 0, 0)` |
| SplitScreen.ArmAtIdentity | split_screen_app.py:323-338 | an arm whose two quaternions are the identity keeps its T-pose segment vectors |
| SplitScreen.InitialLeftArmStraight | split_screen_app.py:25-28 | before any packet the left arm is straight: elbow `(-0.475,0,0)`, hand `(-0.725,0,0)` |
| SplitScreen.ArmsIndependent | split_screen_app.py:328-370 | each arm depends only on its own two buffered quaternions |
| Animate.Decimate | animate.py:10 | decimation keeps rows `0, 15, 30, …`: entry `i` is row `15·i`, and the length is `⌈n/15⌉` |
| Animate.Align | animate.py:17-19 | both aligned streams have length `min(len_f, len_u)` and are prefixes of their inputs |
| Animate.FramesInRange | animate.py:98-99 | every frame index below the frame count is in range for both streams, and frame `i` is row `15·i` of each log |
| Animate.RotationOf | animate.py:91-99 | the library rotation exists for exactly the non-zero quaternions, and it is orthogonal |
| Animate.Update | animate.py:94-115 | a frame is placed exactly when the four quaternions involved are non-zero |
| Animate.UpdateIsCalibratedChain | animate.py:98-115 | the elbow is the upper-arm delta applied to `(0,0,-0.8)`; the forearm uses its own delta, never composed with the upper arm, moved to the elbow |
| Animate.FirstFrameAtRest | animate.py:91-99 | on the first frame both relative rotations are the identity: elbow `(0,0,-0.8)`, fist centre `(0,0,-1.6)` |
| Animate.ForearmIgnoresUpperArm | animate.py:110-115 | a placed forearm point, relative to the elbow, depends only on the forearm stream |
| Animate.ElbowIgnoresForearm | animate.py:106 | the elbow depends only on the upper-arm stream |
| Graph.FindHeader | graph.py:13-20 | the header is the first line containing `SampleTimeFine`, and no earlier line contains it; if no line does, the missing-header error is raised |
| Graph.Max | graph.py:73-75 | the maximum is a sample and bounds every sample |
| Graph.Min | graph.py:73-75 | the minimum is a sample and is bounded by every sample |
| Graph.Range | graph.py:73-75 | the range `max - min` is non-negative, bounds every difference of two samples and is attained by one; an empty column has none |
| Graph.SquaredThreshold | graph.py:100 | for a non-negative distance `d` with `d² = s`, `s < 0.04` exactly when `d < 0.2` |
| Graph.GoodFormIffClose | graph.py:97-104 | the good-form verdict holds exactly when the start-to-end distance is below `0.2` |
| Graph.Verdict | graph.py:80-81 | an empty log has no verdict; otherwise the verdict compares the first sample of the three columns with the last one |
| Graph.VerdictIffClose | graph.py:80-104 | the verdict on the columns is good form exactly when the first and last samples are less than `0.2` apart, and a one-sample log is always good form |
| DotManager.TrackerLabel | movella_dot_manager.py:121 | the default label is `tracker_` followed by the 1-based number |
| DotManager.TrackerLabelsDistinct | movella_dot_manager.py:121 | different trackers get different default labels |
| DotManager.TypedLabel | movella_dot_manager.py:122-124 | the label is never empty |
| DotManager.TypedLabelSpec | movella_dot_manager.py:122-124 | an all-space reply gives the default `tracker_<i+1>`; any other reply gives its stripped form, which occurs in the reply and starts and ends with a non-space |
| DotManager.NextChoice | movella_dot_manager.py:106-118 | the first acceptable reply is taken: a number in range and not yet used; every reply skipped before it was unacceptable |
| DotManager.NextTracker | movella_dot_manager.py:106-124 | one tracker's round takes an unused, in-range number and the reply after it as a non-empty label; it finds none exactly when the replies run out first |
| DotManager.SelectFrom | movella_dot_manager.py:97-130 | a completed selection extends the choices so far to `num` distinct, in-range indices with non-empty labels; an unfinished one extends them the same way but stays below `num` |
| DotManager.SelectDevices | movella_dot_manager.py:86-130 | refused exactly when fewer devices were detected than requested; otherwise exactly `num` choices with distinct, in-range indices and non-empty labels, or, while waiting for input, fewer than `num` such choices |
| DotManager.SelectFromStops | movella_dot_manager.py:97-130 | the dialogue waits for input only after reading a script of valid rounds whose picks are the partial selection, at a position from which no further round can be completed: no acceptable number follows, or it is the last reply |
| DotManager.SelectDevicesStops | movella_dot_manager.py:86-130 | a whole dialogue that waits for input has read fewer than `num` valid rounds from the start of the replies, their picks are the partial selection, and no further round can be completed |
| DotManager.SelectDevicesRounds | movella_dot_manager.py:97-130 | for every script of rounds (unacceptable replies, an acceptable number, a typed label), one round per tracker, the selection is exactly the rounds' numbers with their labels, in order, whatever replies follow |
| DotManager.SelectOne | movella_dot_manager.py:97-127 | unacceptable replies are skipped, the first acceptable number is taken, and an empty label becomes `tracker_1` |
| DotManager.NextChoiceSkips | movella_dot_manager.py:106-118 | replies before the first acceptable one are ignored |
| DotManager.Lookup | movella_dot_manager.py:165-168 | a label is found exactly for the addresses in the table |
| DotManager.Put | movella_dot_manager.py:165-168 | storing under an address keeps the addresses unique; a known address keeps its place and a new one is appended |
| DotManager.PutLookup | movella_dot_manager.py:165-168 | after storing, the address reads back the new label and every other address reads back its old one |
| DotManager.ConnectToDevices | movella_dot_manager.py:132-172 | an empty connected list fails and changes nothing; otherwise it succeeds exactly when every selected address is connected, and success records the addresses in selection order, each with its label; a failure stops at the first missing address, every earlier one connected and recorded |
| DotManager.ConnectSelected | movella_dot_manager.py:147-170 | matching succeeds exactly when every selected address is present; a failure records the selected prefix before the first missing address, all of whose addresses are present |
| DotManager.PutAllDistinct | movella_dot_manager.py:165-168 | with distinct addresses, the table holds one row per selected device, in selection order |
| DotManager.GetDeviceByLabel | movella_dot_manager.py:432-437 | `None` exactly when no device has the label; otherwise the first device in table order with that label |
| DotManager.ConnectedLookups | movella_dot_manager.py:432-437 | after connecting devices with distinct addresses and labels, each address yields its label and each label its address |
| DotManager.FirstMode | movella_dot_manager.py:402-413 | the payload mode used is the first accepted one in the order Extended, Complete, Orientation; `None` exactly when a device accepts none |
| DotManager.Started | movella_dot_manager.py:392-413 | the started devices, each with its first accepted mode, include every device that accepts any mode |
| DotManager.StartMeasurementMode | movella_dot_manager.py:386-425 | the call reports success exactly when some device accepts some payload mode |
| DotManager.ResultsByLabel | movella_dot_manager.py:272-291 | every label of a connected device gets a result |
| DotManager.ResultsByLabelLast | movella_dot_manager.py:272-291 | a label's result is the outcome of the last device carrying that label, since later writes overwrite earlier ones |
| DotManager.ResultsByLabelAllTrue | movella_dot_manager.py:308-320 | every label reads back a success exactly when the last device carrying each label succeeded |
| DotManager.CalibrateAsWritten | movella_dot_manager.py:200-332 | a single device succeeds exactly when it is configured and its reset succeeds; with several, success holds exactly when every device was configured and, for each label, the last device carrying it started and reset |
| DotManager.Calibrate | movella_dot_manager.py:239-332 | success holds exactly when every device calibrated: configured and reset, and also started when there are several; success implies every device was configured and reset |
| DotManager.CalibrateAgreesOnDistinctLabels | movella_dot_manager.py:308-332 | with distinct labels, the per-label aggregation equals the per-device one |
| DotManager.SharedLabelMasksFailure | movella_dot_manager.py:281-320 | two devices sharing a label, the first failing to reset and the second succeeding: the as-written aggregation reports success, while the per-device aggregation reports failure |
| DotManager.Header | movella_dot_manager.py:486-487 | the header has one column per device, in device order: the label followed by `_WXYZ` |
| DotManager.HeaderDistinct | movella_dot_manager.py:486 | devices with different labels get different header columns |
| DotManager.RowOf | movella_dot_manager.py:494-504 | a complete sample gives one quaternion per device, each the one its packet carried |
| DotManager.WrittenRows | movella_dot_manager.py:490-509 | every written row comes from a poll in which all devices delivered an orientation |
| DotManager.WrittenRowsCount | movella_dot_manager.py:506-509 | exactly one row is written per complete poll |
| DotManager.Record | movella_dot_manager.py:451-517 | no recording without devices; otherwise the header and the rows of the complete polls, each row holding one quaternion per device |
| DotManager.WrittenRowsShape | movella_dot_manager.py:494-509 | every written row has one entry per device |
| DeviceSetup.DefaultLabel | device_setup_app.py:482 | the default sensor label starts with `Sensor_` and contains no `(` |
| DeviceSetup.DefaultLabelsDistinct | device_setup_app.py:482 | different sensors get different default labels |
| DeviceSetup.SensorOptions | device_setup_app.py:652-656 | the options are the placeholder followed by `label (address)` for each detected sensor, in order |
| DeviceSetup.ExtractAsWritten | device_setup_app.py:678 | extraction fails exactly when the text has no `(`; otherwise it returns the parenthesis-free text after the first `(`, up to the next `(` or `)` or the end |
| DeviceSetup.ExtractAddress | device_setup_app.py:652-656 | the corrected extraction fails exactly when the text has no `(`; otherwise it returns the parenthesis-free text after the last `(`, up to the next `)` or the end |
| DeviceSetup.PlaceholderHasNoAddress | device_setup_app.py:676 | the placeholder yields no address, under either extraction |
| DeviceSetup.ExtractAsWrittenRoundTrip | device_setup_app.py:652-678 | for a label with no `(`, extraction returns the option's address |
| DeviceSetup.ExtractAsWrittenMisreadsLabel | device_setup_app.py:678 | a label containing `(inner)` makes the extraction return `inner` instead of the address |
| DeviceSetup.ExtractAddressRoundTrip | device_setup_app.py:652-678 | the corrected extraction returns the address for every label |
| DeviceSetup.ExtractionsAgree | device_setup_app.py:678 | on labels without `(` the two extractions agree |
| DeviceSetup.Resolve | device_setup_app.py:676-688 | a text resolves exactly when it is not the placeholder, the address after its first `(` can be read, and that address was detected; the index is then the first detected sensor with that address |
| DeviceSetup.ResolveCorrected | device_setup_app.py:652-688 | the same look-up with the address read from the last parentheses resolves exactly when that address was detected, to its first sensor |
| DeviceSetup.PickingAnEntryResolvesToItsSensor | device_setup_app.py:652-688 | with distinct addresses and a label holding no `(`, picking option `i+1` selects sensor `i` |
| DeviceSetup.LabelQuotingAnotherAddressResolvesWrongly | device_setup_app.py:652-688 | when sensor `i`'s label is `p(a)` with `a` the address of sensor `j`, picking option `i+1` selects sensor `j`, while the corrected look-up selects `i` |
| DeviceSetup.PickingAnEntryResolvesCorrected | device_setup_app.py:652-688 | with distinct addresses the corrected look-up maps option `i+1` to sensor `i` whatever the labels |
| DeviceSetup.SelectSensor | device_setup_app.py:672-698 | the taken set never shrinks; an unresolved choice only records the text; a taken sensor resets the position to the placeholder; otherwise the sensor is added |
| DeviceSetup.SelectSensorKeepsInRange | device_setup_app.py:691-697 | taken sensors stay valid indices, and one selection adds at most one of them |
| DeviceSetup.SecondPickOfSameSensorRejected | device_setup_app.py:691-695 | picking the same sensor for a second position resets that position and leaves the taken set unchanged |
| DeviceSetup.Assignments | device_setup_app.py:703-720 | each assignment is a listed position whose choice resolves to that sensor; there are none exactly when no position resolves |
| DeviceSetup.AssignmentsComplete | device_setup_app.py:705-720 | every position whose choice resolves contributes its assignment |
| DeviceSetup.ConfirmAssignments | device_setup_app.py:700-727 | confirming gives nothing exactly when no position resolves; otherwise it stores exactly the assignments of the resolving positions, between one and four of them |
| DeviceSetup.ConfirmAssignmentsComplete | device_setup_app.py:703-727 | when some position resolves, confirming stores something, and the assignment of every resolving position is among what it stores |
| DeviceSetup.NothingChosenConfirmsNothing | device_setup_app.py:722-725 | a screen showing only placeholders confirms nothing |
| DeviceSetup.Progress | device_setup_app.py:126-134 | there are seven indicators, and indicator `i` is marked done exactly when `i < step` |
| DeviceSetup.ProgressCount | device_setup_app.py:102-134 | the number of marked indicators is the step clamped to `0..7`, and advancing the step never unmarks one |
| Text.JoinSplit | device_setup_app.py:678 | joining the pieces of a split with the separator gives back the text |
| Text.SplitJoin | device_setup_app.py:678 | splitting a join of separator-free pieces gives back the pieces |
| Text.StripSpec | movella_dot_manager.py:122 | the stripped reply is a slice of the reply that starts and ends with a non-space, and is empty exactly when the reply is all space |
| Text.NatToStringRoundTrip | movella_dot_manager.py:121 | the decimal digits of a number read back as the number |
| Text.NatToStringInjective | device_setup_app.py:482 | different numbers have different decimal forms |
| Sequences.FirstIndex | movella_dot_manager.py:155-158 | the search finds the first position holding the element, and fails exactly when the element is absent |

## Left out

- Drawing, windows and dialogs are not modelled: the Tk and ttk widgets, matplotlib and Open3D plots, cylinders, spheres, meshes, GIF output, the camera panel and hover effects. `gui_app.py` and `main.py` are not part of this model.
- The Movella SDK, `XdpcHandler`, keyboard polling, `input()` and `time.sleep` become inputs:
  - the connected addresses;
  - the payload modes each device accepts;
  - the configure, start and reset outcomes;
  - the packet contents of each poll;
  - the typed replies, parsed by an abstract `int()`.
- Threads and locks are not modelled. The calibration threads, the collection thread and the simulation thread are replaced by their sequential state updates. Thread completion order is taken to be device order.
- File I/O, CSV and pandas reading are not modelled. Rows arrive as sequences of strings, and `float()` is an abstract partial parser.
- Floating-point specifics are not modelled: NaN filtering in the graph report, the `:.4f` formatting of recorded quaternions, and trigonometry in the simulated motion. The simulated forearm samples are an input. Arithmetic is exact.
- `Graph.GoodFormIffClose`: the distance is characterised by `d ≥ 0` and `d² = ‖end - start‖²`, instead of a square root.
- `Animate.RotationOf`: the library rotation is modelled as the rotation matrix of the quaternion, with the zero quaternion refused. Its internal representation is not modelled.
- `Text.StripSpec`: space is the six characters space, tab, line feed, carriage return, vertical tab and form feed. Python's `str.strip()` also removes `\x1c`–`\x1f`, `\x85`, `\xa0`, `\u1680`, `\u2000`–`\u200a`, `\u2028`, `\u2029`, `\u202f`, `\u205f` and `\u3000`, so for replies made of those the model keeps characters Python drops.
- `BicepCurlCsv.AnimationPose`: it requires four components in each of frame `i`'s rows. The loader never checks how many numbers a field holds, and the animation stacks the rows into NumPy arrays and rolls them (`visualize_bicep_curl.py:660-666`), which misbehaves on rows of another length; the model does not follow that behaviour and gives no pose for such frames.
- `DotManager.SelectDevices`: running out of replies stands for the prompt waiting forever, and reads as `AwaitingInput`.
- `DotManager.ConnectSelected`: it builds the manager from the selected prefix before the first missing address. It does not replay the dictionary writes one by one, because the table after `k` writes is the same.
- `DotManager.CalibrateAsWritten`: the `configured` flag of an outcome is always true in the program, because `configure_device` returns `True` unconditionally (`movella_dot_manager.py:174-198`); the model keeps it as an input, so its false case describes no run of the program. The single-device branch does not model the reset call's message text. The `_verify_calibration_sync` diagnostic only prints, so it is left out.
- `DeviceSetup.Assignments`: the order of the confirmed list is given by the definition but not stated as a separate property. The screen members `SelectSensor`, `Assignments` and `ConfirmAssignments` resolve as the code does, through `Resolve`; `ResolveCorrected` is the look-up the findings table compares it with.
- `get_tracker_count`, `scan_for_devices`, `initialize`, `cleanup`, `configure_device`'s SDK settings and `get_connected_devices` are SDK or console plumbing. They are reduced to their boolean outcomes or left out.
- `split_screen_app.py` calls `get_body_position_mapping`, `connect_to_assigned_devices` and `start_measurement`, none of which the manager defines. The body-position mapping is an input.
- Commented-out code is not modelled, including the hierarchical forearm composition in the early parts of `visualize_bicep_curl.py` and `visualidump.py`.

## Findings

| source | as written | input that shows it | evidently intended | confidence | as-written member | corrected member |
|---|---|---|---|---|---|---|
| device_setup_app.py:678 | the address is the text after the first `(` up to the next `)` of `label (address)`; `confirm_assignments` (line 709) repeats it | the editable label `Arm (BB)` for sensor `AA`, with `BB` another detected sensor: the option `Arm (BB) (AA)` assigns sensor `BB` | the address inside the last parentheses | high, not executed | DeviceSetup.LabelQuotingAnotherAddressResolvesWrongly | DeviceSetup.PickingAnEntryResolvesCorrected |
| visualize_bicep_curl.py:569-576 | a row's four fields are appended one stream at a time, so a row that fails at field `k` has already appended fields before `k` | a complete row followed by a row with one parsable field: the first stream has 2 frames and the second 1, and the animation reads frame 1 of every stream | skip a malformed row as a whole, as the warning says | high, not executed | BicepCurlCsv.ShortRowDesynchronises | BicepCurlCsv.AtomicFramesInRange |
| movella_dot_manager.py:281-320 | calibration results are keyed by label, and labels may repeat | two devices labelled `tracker`; the first fails to reset and the second succeeds: the result is success | keep one result per device | high, not executed | DotManager.SharedLabelMasksFailure | DotManager.Calibrate |

# Snake-pattern photo scan, modelled in Dafny

`snakeMovePics.py` turns a 3D printer into a camera gantry. It homes the
printer, lifts the head to a safe height, and moves to a start offset. Then it
starts a still camera and walks an N×N grid in boustrophedon ("snake") order.
At each grid point it sends a `G1` move, waits for the move to settle, and
saves one image named `x{col}_y{row}.jpg` into a per-session folder. At the
end it stops the camera and moves back to the start position. Every command is
sent by `send_command`, which writes one line and then reads reply lines until
one of them, stripped of whitespace, is `ok`.

The model has no hardware in it. It is split into these modules:

- `Grid` (`grid.dfy`): the snake visit order, built row by row as the nested
  loop builds it. It is proved to be a permutation of the grid with
  alternating row directions and adjacent consecutive steps. The inverse map
  is `Index`.
- `Gantry` (`gantry.dfy`): the configuration constants and the target
  position `offset + index × step` of each grid point. It also holds the G-code
  commands, kept as structured data, and how each command changes the
  commanded (logical) position.
- `FileNames` (`filenames.dfy`): Python's decimal rendering of an `int`, its
  inverse, and the proof that the file-name scheme is injective.
- `Ack` (`ack.dfy`): Python's `str.strip()` and the `ok` wait, run over a
  finite sequence of reply lines.
- `Session` (`session.dfy`): the whole script as a list of events (`Cmd`,
  `CamStart`, `Capture`, `CamStop`). It states ordering, count and position
  invariants over that list. `Execute` runs the list against the controller's
  replies and stops for good when an acknowledgement never comes.
- `Wrappers` (`wrappers.dfy`): `Option`.
- `Seqs` (`seqs.dfy`): two indexing facts about sequence concatenation.

Positions are exact `real` millimetres. The script computes them in binary
floating point and prints them into the command text. The model therefore
keeps a command as a `GCode` value, not as the text sent on the wire.

## Model

| member | source | states |
|---|---|---|
| Grid.ColumnsDirection | snakeMovePics.py:61 | Row r visits n columns, each below n. On even rows each column is one more than the one before, starting at 0. On odd rows each is one less, starting at n-1. |
| Grid.SnakePrefix | snakeMovePics.py:58-63 | The first m iterations of the outer loop visit exactly m·n points. |
| Grid.SnakeOrderLayout | snakeMovePics.py:58-63 | Step r·n+k of the scan visits row r at column k if r is even, and at column n-1-k if r is odd. The scan has n² steps. |
| Grid.SnakeOrderIndex | snakeMovePics.py:58-63 | `Index` and the snake order are mutual inverses: each step visits a grid point whose index is that step, and each grid point is visited at its index. |
| Grid.SnakeOrderPermutation | snakeMovePics.py:58-63 | The scan has length n². It contains a point if and only if both coordinates are below n. No point appears twice. |
| Grid.SnakeOrderDistinct | snakeMovePics.py:58-63 | Two different steps of the scan never visit the same point. |
| Grid.SnakeRowsAscend | snakeMovePics.py:58 | Rows are visited in non-decreasing order along the scan. |
| Grid.SnakeStepsAdjacent | snakeMovePics.py:58-63 | Each pair of consecutive points differs by exactly 1 in exactly one coordinate. |
| Grid.SnakeOrderTwoByTwo | snakeMovePics.py:58-63 | For n = 2 the scan visits (0,0), (0,1), (1,1), (1,0). |
| Gantry.ApplyForgetsStart | snakeMovePics.py:36-78 | Homing, and a move naming X, Y and Z like the final retreat, give the same commanded position whatever the position before them. |
| Gantry.ApplyIdempotent | snakeMovePics.py:40-44 | Coordinates are absolute: a command sent twice commands no further than sent once. |
| Gantry.GridTargetInjective | snakeMovePics.py:59-64 | With a positive step, two grid points have the same XY target only if they are the same point. |
| Gantry.AdjacentTargetsOneStep | snakeMovePics.py:59-64 | Targets of adjacent grid points differ by exactly one step along one axis and agree along the other. |
| Gantry.GridTargetInScanArea | snakeMovePics.py:58-64 | Every target lies between the offset and the offset plus (n-1) steps, on both axes. |
| Gantry.GridOriginIsStart | snakeMovePics.py:44 | Grid point (0,0) targets the start position, so the first scan move does not leave the pre-scan position. |
| FileNames.Decimal | snakeMovePics.py:71 | The rendered number is a non-empty string of digits with no leading zero, except for "0" itself. |
| FileNames.DecimalRoundTrip | snakeMovePics.py:71 | Parsing the rendering of n gives back n. |
| FileNames.ParseDecimalRoundTrip | snakeMovePics.py:71 | Rendering the value of any canonical numeral gives back that numeral, so numbers and numerals are in bijection. |
| FileNames.FileNameInjective | snakeMovePics.py:71 | `x{col}_y{row}.jpg` is the same for two points if and only if the points are equal. |
| FileNames.CapturePathInjective | snakeMovePics.py:71 | Within one session folder, two capture paths are equal if and only if their grid points are equal. |
| FileNames.FileNameExample | snakeMovePics.py:71 | Row 0, column 1 is saved as `x1_y0.jpg`, and row 1, column 0 as `x0_y1.jpg`. |
| Ack.StripSpec | snakeMovePics.py:30 | The result is empty exactly when the line is all whitespace. Otherwise it starts and ends with a non-whitespace character. The line is the result with only whitespace before and after it. |
| Ack.StripPadded | snakeMovePics.py:30 | If a core has non-whitespace ends and is surrounded only by whitespace, stripping the line returns exactly that core. |
| Ack.AckIffPaddedOk | snakeMovePics.py:30-31 | A reply line counts as an acknowledgement if and only if it is `ok` with nothing but whitespace around it. |
| Ack.SplitReplyIsNoAck | snakeMovePics.py:30-31 | A reply that arrives as `"o"` and then `"k\n"`, split by a read timeout, is not taken as an acknowledgement. |
| Ack.WaitAckFindsFirstAck | snakeMovePics.py:29-32 | The wait consumes the lines up to and including the first acknowledgement, and no earlier line is one. It gives no result if and only if no line is an acknowledgement. |
| Ack.WaitAckConsumesOne | snakeMovePics.py:29-32 | The wait fails if and only if there are no acknowledgements. Otherwise the unread input holds exactly one fewer acknowledgement. |
| Session.Execute | snakeMovePics.py:27-32 | A completed run produced exactly the plan. A stuck run produced a non-empty prefix of the plan, and its last event is the command still waiting for `ok`. |
| Session.ExecuteAckAccounting | snakeMovePics.py:27-32 | A run completes if and only if the replies hold at least as many acknowledgements as the plan has commands. Each command uses one. A stuck run wrote one more command than was acknowledged. |
| Session.BlockedEventsFollowAcks | snakeMovePics.py:27-32 | In a stuck run, every event before the last one happened only after all earlier commands were acknowledged. |
| Session.PlanLayout | snakeMovePics.py:36-78 | The session is home, lift, start move and camera start. Then, for the k-th snake point, the move to it at 4+2k and its capture at 5+2k. Then camera stop and retreat. In total 2n²+6 events. |
| Session.PlanEventKind | snakeMovePics.py:36-78 | In a session the camera is started only at event 3 and stopped only just before the last event. Every capture lies strictly between them. |
| Session.PlanCapturesFollowOwnMove | snakeMovePics.py:63-72 | Every capture comes immediately after the `G1` move to the same grid point its file is named after. |
| Session.PlanCameraStartsAfterPreScan | snakeMovePics.py:36-52 | The session opens with home, lift and start move. The camera is started right after them and never again. |
| Session.PlanCameraStopsBeforeRetreat | snakeMovePics.py:76-78 | The camera is stopped exactly once, immediately before the last event: the retreat to (OFFSET_X, OFFSET_Y, START_Z). |
| Session.PlanCapturesWhileCameraOn | snakeMovePics.py:52-77 | Every capture comes after every camera start and before every camera stop. |
| Session.ScanPathsDiffer | snakeMovePics.py:58-71 | Two different steps of the snake order save to two different paths in the session folder. |
| Session.PlanNoPathRepeated | snakeMovePics.py:58-72 | No two captures of a session write the same path. |
| Session.PlanCounts | snakeMovePics.py:36-78 | A session sends n²+4 commands and takes n² captures. |
| Session.PlanHoldsLift | snakeMovePics.py:40-78 | From the lift onward, the commanded Z stays START_Z for the rest of the session, whatever the starting position. |
| Session.PlanCaptureAtTarget | snakeMovePics.py:58-72 | At the k-th capture the commanded position is the XY target of the point in the file name, at START_Z. |
| Session.PlanEndsAtStart | snakeMovePics.py:78 | The final commanded position of the session is (OFFSET_X, OFFSET_Y, START_Z), wherever the gantry started. |
| Session.RunScriptOutcome | snakeMovePics.py:27-78 | The script finishes if and only if the controller acknowledges n²+4 commands, and then its trace is the plan. Otherwise it is stuck waiting for the acknowledgement of a command of the plan. |
| Session.RunScriptCameraAfterAcks | snakeMovePics.py:36-52 | If the script gets stuck after starting the camera, the three pre-scan commands were all acknowledged. |
| Session.ScriptConfigSession | snakeMovePics.py:7-12 | With the shipped constants, a session sends 104 commands, saves 100 images, and its final commanded position is (50.8, 50.8, 127.0). |

## Left out

- Opening the serial port, writing bytes, `readline` and `decode`, and the bare `except` that calls `exit()` (lines 19-25, 28, 30). These are I/O and process control. Reply lines come in as already-decoded strings. A read that times out returns whatever arrived before the timeout, possibly nothing, so one reply can arrive split over several lines (`"o"`, then `"k\n"`). Such pieces are ordinary lines that are not acknowledgements (`Ack.SplitReplyIsNoAck`).
- The infinite block of the `ok` wait. A finite input that runs out without an `ok` stands for it: `WaitAck` gives `None` and `Execute` gives `Blocked`.
- Camera configuration, start, capture and stop (lines 49-52, 72, 77). These are foreign library calls and appear only as trace events.
- Every `time.sleep` and every console `print`. Only the order of events is modelled.
- The timestamped folder name and `os.makedirs` (lines 15-16). They depend on the clock and the filesystem. The folder is an opaque string parameter.
- Floating-point arithmetic, and how floats print inside G-code text. Positions are exact reals and commands are structured `GCode` values. No byte-exact command text is claimed.
- Uncaught exceptions: `.decode()` (line 30) raises on a reply that is not valid UTF-8, and the camera calls (lines 49-52, 72, 77) can raise. The script then ends with an exception. `Session.Outcome` has no such third outcome; it covers only completion and waiting forever.
- Motion timing: the controller acknowledges a `G1` once it is queued, and the script relies on its sleeps (lines 37, 41, 45, 69) for the move to finish. The model treats an acknowledged move as a completed one. `PoseAfter` and every lemma about it speak of the commanded position, not where the head physically is when an image is taken.
- The motion firmware is not part of this model. `Gantry.Apply` assumes that `G28` sets the logical position to (0, 0, 0) and that `G1` sets exactly the axes it names.
- Gantry.GridTargetInjective: needs a positive step. The script's 12.7 mm satisfies this, but the script itself never checks it.

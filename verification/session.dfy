/** The whole script as a sequence of observable events.

    `Plan` is what the script does when every command is acknowledged:
    home, lift, move to the start position, start the camera, then for
    every grid point in snake order a move followed by a capture, and
    finally stop the camera and retreat. `Execute` runs a plan against the
    lines the motion controller sends, and stops for good at a command whose
    acknowledgement never comes.
 */
module Session {
  import opened Wrappers
  import opened Grid
  import opened Gantry
  import opened FileNames
  import opened Ack
  import opened Seqs

  /** What the script does, as seen from outside: a command written to the
      controller, or a call on the camera. */
  datatype Event =
    | Cmd(code: GCode)
    | CamStart
    | Capture(path: string)
    | CamStop

  /** Homing, lifting and moving to the start, then starting the camera. */
  function PreScan(cfg: ScanConfig): seq<Event> {
    [Cmd(HomeCmd()), Cmd(LiftCmd(cfg)), Cmd(StartCmd(cfg)), CamStart]
  }

  /** The body of the scan loop for each point of `pts`: move there, then capture. */
  function ScanEvents(cfg: ScanConfig, folder: string, pts: seq<Point>): (ev: seq<Event>)
    ensures |ev| == 2 * |pts|
  {
    if |pts| == 0 then []
    else [Cmd(GridMoveCmd(cfg, pts[0])), Capture(CapturePath(folder, pts[0]))] + ScanEvents(cfg, folder, pts[1..])
  }

  /** Stopping the camera, then retreating to the start position at lift height. */
  function Shutdown(cfg: ScanConfig): seq<Event> {
    [CamStop, Cmd(RetreatCmd(cfg))]
  }

  /** The events of a session whose commands are all acknowledged, with
      images saved under `folder`. */
  function Plan(cfg: ScanConfig, folder: string): seq<Event> {
    PreScan(cfg) + ScanEvents(cfg, folder, SnakeOrder(cfg.gridSize)) + Shutdown(cfg)
  }

  /** Number of commands written to the controller. */
  function CountCmds(t: seq<Event>): nat {
    if |t| == 0 then 0 else (if t[0].Cmd? then 1 else 0) + CountCmds(t[1..])
  }

  /** Number of images captured. */
  function CountCaptures(t: seq<Event>): nat {
    if |t| == 0 then 0 else (if t[0].Capture? then 1 else 0) + CountCaptures(t[1..])
  }

  /** The effect of one event on the commanded position: only commands change it. */
  function Step(pose: Pose, e: Event): Pose {
    if e.Cmd? then Apply(pose, e.code) else pose
  }

  /** The commanded position after the events `t`, starting from `start`. */
  function PoseAfter(start: Pose, t: seq<Event>): Pose {
    if |t| == 0 then start else Step(PoseAfter(start, t[..|t| - 1]), t[|t| - 1])
  }

  // ---------------------------------------------------------------------
  // Ordering invariants, stated over any trace
  // ---------------------------------------------------------------------

  /** Every capture comes right after the move to the grid point it is named after. */
  ghost predicate CapturesFollowOwnMove(cfg: ScanConfig, folder: string, t: seq<Event>) {
    forall i :: 0 <= i < |t| && t[i].Capture? ==>
      && i > 0
      && (exists p :: InGrid(cfg.gridSize, p) &&
            t[i - 1] == Cmd(GridMoveCmd(cfg, p)) && t[i] == Capture(CapturePath(folder, p)))
  }

  /** The trace opens with homing, lifting and moving to the start, and the
      camera is started right after them and never again. */
  predicate CameraStartsAfterPreScan(cfg: ScanConfig, t: seq<Event>) {
    && |t| >= 4
    && t[0] == Cmd(HomeCmd()) && t[1] == Cmd(LiftCmd(cfg)) && t[2] == Cmd(StartCmd(cfg))
    && t[3] == CamStart
    && forall i :: 0 <= i < |t| && t[i] == CamStart ==> i == 3
  }

  /** The camera is stopped exactly once, right before the final retreat. */
  predicate CameraStopsBeforeRetreat(cfg: ScanConfig, t: seq<Event>) {
    && |t| >= 2
    && t[|t| - 2] == CamStop && t[|t| - 1] == Cmd(RetreatCmd(cfg))
    && forall i :: 0 <= i < |t| && t[i] == CamStop ==> i == |t| - 2
  }

  /** Every capture lies after every camera start and before every camera stop. */
  predicate CapturesWhileCameraOn(t: seq<Event>) {
    forall i, j :: 0 <= i < |t| && 0 <= j < |t| && t[i].Capture? ==>
      (t[j] == CamStart ==> j < i) && (t[j] == CamStop ==> i < j)
  }

  /** No two captures write the same file. */
  predicate NoPathRepeated(t: seq<Event>) {
    forall i, j :: 0 <= i < j < |t| && t[i].Capture? && t[j].Capture? ==> t[i].path != t[j].path
  }

  // ---------------------------------------------------------------------
  // Layout of the plan
  // ---------------------------------------------------------------------

  lemma {:induction false} ScanEventsAt(cfg: ScanConfig, folder: string, pts: seq<Point>, k: nat)
    requires k < |pts|
    ensures ScanEvents(cfg, folder, pts)[2 * k] == Cmd(GridMoveCmd(cfg, pts[k]))
    ensures ScanEvents(cfg, folder, pts)[2 * k + 1] == Capture(CapturePath(folder, pts[k]))
  {
    if k > 0 {
      ScanEventsAt(cfg, folder, pts[1..], k - 1);
    }
  }

  /** Event `i` of the pre-scan block, a scan body over `pts`, and the
      shutdown block, put together. */
  lemma AssembledAt(cfg: ScanConfig, folder: string, pts: seq<Point>, i: nat)
    requires i < 2 * |pts| + 6
    ensures var t := PreScan(cfg) + ScanEvents(cfg, folder, pts) + Shutdown(cfg);
      && |t| == 2 * |pts| + 6
      && (i < 4 ==> t[i] == PreScan(cfg)[i])
      && (4 <= i < |t| - 2 && i % 2 == 0 ==> t[i] == Cmd(GridMoveCmd(cfg, pts[(i - 4) / 2])))
      && (4 <= i < |t| - 2 && i % 2 == 1 ==> t[i] == Capture(CapturePath(folder, pts[(i - 4) / 2])))
      && (|t| - 2 <= i ==> t[i] == Shutdown(cfg)[i - (|t| - 2)])
  {
    var pre, scan, post := PreScan(cfg), ScanEvents(cfg, folder, pts), Shutdown(cfg);
    if i < 4 {
      AppendLeft(pre + scan, post, i);
      AppendLeft(pre, scan, i);
    } else if i < 4 + |scan| {
      AppendLeft(pre + scan, post, i);
      AppendRight(pre, scan, i - 4);
      ScanEventsAt(cfg, folder, pts, (i - 4) / 2);
    } else {
      AppendRight(pre + scan, post, i - (4 + |scan|));
    }
  }

  /** The scan body holds only moves and captures. */
  lemma ScanEventsKind(cfg: ScanConfig, folder: string, pts: seq<Point>, j: nat)
    requires j < |ScanEvents(cfg, folder, pts)|
    ensures ScanEvents(cfg, folder, pts)[j].Cmd? || ScanEvents(cfg, folder, pts)[j].Capture?
  {
    ScanEventsAt(cfg, folder, pts, j / 2);
  }

  /** The camera is started only at event 3 and stopped only just before the
      last event; captures lie strictly between. */
  lemma PlanEventKind(cfg: ScanConfig, folder: string, i: nat)
    requires i < |Plan(cfg, folder)|
    ensures var t := Plan(cfg, folder);
      && (t[i] == CamStart <==> i == 3)
      && (t[i] == CamStop <==> i + 2 == |t|)
      && (t[i].Capture? ==> 4 < i && i + 2 < |t|)
  {
    var pre, scan, post := PreScan(cfg), ScanEvents(cfg, folder, SnakeOrder(cfg.gridSize)), Shutdown(cfg);
    if i < 4 {
      AppendLeft(pre + scan, post, i);
      AppendLeft(pre, scan, i);
    } else if i < 4 + |scan| {
      AppendLeft(pre + scan, post, i);
      AppendRight(pre, scan, i - 4);
      ScanEventsKind(cfg, folder, SnakeOrder(cfg.gridSize), i - 4);
    } else {
      AppendRight(pre + scan, post, i - (4 + |scan|));
    }
  }

  /** Event `i` of the plan: the pre-scan block for `i < 4`, the shutdown
      block for the last two, and in between the move to the grid point
      `(i - 4) / 2` of the snake order when `i` is even, its capture when odd. */
  lemma PlanEventAt(cfg: ScanConfig, folder: string, i: nat)
    requires i < |Plan(cfg, folder)|
    ensures var t, pts := Plan(cfg, folder), SnakeOrder(cfg.gridSize);
      && |t| == 2 * |pts| + 6
      && (i < 4 ==> t[i] == PreScan(cfg)[i])
      && (4 <= i < |t| - 2 && i % 2 == 0 ==> t[i] == Cmd(GridMoveCmd(cfg, pts[(i - 4) / 2])))
      && (4 <= i < |t| - 2 && i % 2 == 1 ==> t[i] == Capture(CapturePath(folder, pts[(i - 4) / 2])))
      && (|t| - 2 <= i ==> t[i] == Shutdown(cfg)[i - (|t| - 2)])
  {
    AssembledAt(cfg, folder, SnakeOrder(cfg.gridSize), i);
  }

  /** The `k`-th grid point of the snake order is visited by events
      `4 + 2k` (the move) and `5 + 2k` (the capture) of the plan. */
  lemma PlanScanStep(cfg: ScanConfig, folder: string, k: nat)
    requires k < |SnakeOrder(cfg.gridSize)|
    ensures var t, p := Plan(cfg, folder), SnakeOrder(cfg.gridSize)[k];
      && 5 + 2 * k < |t| - 2
      && t[4 + 2 * k] == Cmd(GridMoveCmd(cfg, p))
      && t[5 + 2 * k] == Capture(CapturePath(folder, p))
  {
    var pts := SnakeOrder(cfg.gridSize);
    var pre, scan, post := PreScan(cfg), ScanEvents(cfg, folder, pts), Shutdown(cfg);
    var t := pre + scan + post;
    ScanEventsAt(cfg, folder, pts, k);
    assert t[4 + 2 * k] == scan[2 * k];
    assert t[5 + 2 * k] == scan[2 * k + 1];
  }

  /** The plan is the pre-scan block, then a move/capture pair for each grid
      point in snake order, then the shutdown block. */
  lemma PlanLayout(cfg: ScanConfig, folder: string)
    ensures var t, n := Plan(cfg, folder), cfg.gridSize;
      && |t| == 2 * (n * n) + 6
      && t[..4] == PreScan(cfg)
      && t[|t| - 2..] == Shutdown(cfg)
      && forall k :: 0 <= k < n * n ==>
        && t[4 + 2 * k] == Cmd(GridMoveCmd(cfg, SnakeOrder(n)[k]))
        && t[5 + 2 * k] == Capture(CapturePath(folder, SnakeOrder(n)[k]))
  {
    var t, n := Plan(cfg, folder), cfg.gridSize;
    SnakeOrderLength(n);
    forall k | 0 <= k < n * n
      ensures t[4 + 2 * k] == Cmd(GridMoveCmd(cfg, SnakeOrder(n)[k]))
      ensures t[5 + 2 * k] == Capture(CapturePath(folder, SnakeOrder(n)[k]))
    {
      PlanScanStep(cfg, folder, k);
    }
  }

  // ---------------------------------------------------------------------
  // The plan keeps the ordering invariants
  // ---------------------------------------------------------------------

  /** Every capture of the plan is the capture of some step `k` of the scan,
      at event `5 + 2k`. */
  lemma PlanCaptureStep(cfg: ScanConfig, folder: string, i: nat) returns (k: nat)
    requires i < |Plan(cfg, folder)| && Plan(cfg, folder)[i].Capture?
    ensures k < |SnakeOrder(cfg.gridSize)| && i == 5 + 2 * k && i + 2 < |Plan(cfg, folder)|
    ensures Plan(cfg, folder)[i] == Capture(CapturePath(folder, SnakeOrder(cfg.gridSize)[k]))
  {
    var pts := SnakeOrder(cfg.gridSize);
    var pre, scan, post := PreScan(cfg), ScanEvents(cfg, folder, pts), Shutdown(cfg);
    PlanEventKind(cfg, folder, i);
    k := (i - 4) / 2;
    AppendLeft(pre + scan, post, i);
    AppendRight(pre, scan, i - 4);
    ScanEventsAt(cfg, folder, pts, k);
  }

  /** The capture at event `i` follows the move to its own grid point. */
  lemma PlanCaptureFollowsMove(cfg: ScanConfig, folder: string, i: nat)
    requires i < |Plan(cfg, folder)| && Plan(cfg, folder)[i].Capture?
    ensures var t := Plan(cfg, folder);
      && i > 0
      && (exists p :: InGrid(cfg.gridSize, p) &&
            t[i - 1] == Cmd(GridMoveCmd(cfg, p)) && t[i] == Capture(CapturePath(folder, p)))
  {
    var t, n := Plan(cfg, folder), cfg.gridSize;
    var k := PlanCaptureStep(cfg, folder, i);
    PlanScanStep(cfg, folder, k);
    var p := SnakeOrder(n)[k];
    SnakeOrderInGrid(n, k);
    assert InGrid(n, p) && t[i - 1] == Cmd(GridMoveCmd(cfg, p)) && t[i] == Capture(CapturePath(folder, p));
  }

  lemma PlanCapturesFollowOwnMove(cfg: ScanConfig, folder: string)
    ensures CapturesFollowOwnMove(cfg, folder, Plan(cfg, folder))
  {
    var t := Plan(cfg, folder);
    forall i | 0 <= i < |t| && t[i].Capture?
      ensures && i > 0
              && (exists p :: InGrid(cfg.gridSize, p) &&
                    t[i - 1] == Cmd(GridMoveCmd(cfg, p)) && t[i] == Capture(CapturePath(folder, p)))
    {
      PlanCaptureFollowsMove(cfg, folder, i);
    }
  }

  /** The only camera start of the plan is event 3. */
  lemma PlanCamStartAt(cfg: ScanConfig, folder: string, j: nat)
    requires j < |Plan(cfg, folder)| && Plan(cfg, folder)[j] == CamStart
    ensures j == 3
  {
    PlanEventKind(cfg, folder, j);
  }

  /** The only camera stop of the plan is the event before the last. */
  lemma PlanCamStopAt(cfg: ScanConfig, folder: string, j: nat)
    requires j < |Plan(cfg, folder)| && Plan(cfg, folder)[j] == CamStop
    ensures j + 2 == |Plan(cfg, folder)|
  {
    PlanEventKind(cfg, folder, j);
  }

  lemma PlanCameraStartsAfterPreScan(cfg: ScanConfig, folder: string)
    ensures CameraStartsAfterPreScan(cfg, Plan(cfg, folder))
  {
    var t := Plan(cfg, folder);
    PlanEventAt(cfg, folder, 0);
    PlanEventAt(cfg, folder, 1);
    PlanEventAt(cfg, folder, 2);
    PlanEventAt(cfg, folder, 3);
    forall i | 0 <= i < |t| && t[i] == CamStart
      ensures i == 3
    {
      PlanCamStartAt(cfg, folder, i);
    }
  }

  lemma PlanCameraStopsBeforeRetreat(cfg: ScanConfig, folder: string)
    ensures CameraStopsBeforeRetreat(cfg, Plan(cfg, folder))
  {
    var t := Plan(cfg, folder);
    PlanEventAt(cfg, folder, |t| - 2);
    PlanEventAt(cfg, folder, |t| - 1);
    forall i | 0 <= i < |t| && t[i] == CamStop
      ensures i == |t| - 2
    {
      PlanCamStopAt(cfg, folder, i);
    }
  }

  lemma PlanCapturesWhileCameraOn(cfg: ScanConfig, folder: string)
    ensures CapturesWhileCameraOn(Plan(cfg, folder))
  {
    var t := Plan(cfg, folder);
    forall i, j | 0 <= i < |t| && 0 <= j < |t| && t[i].Capture?
      ensures (t[j] == CamStart ==> j < i) && (t[j] == CamStop ==> i < j)
    {
      var _ := PlanCaptureStep(cfg, folder, i);
      if t[j] == CamStart {
        PlanCamStartAt(cfg, folder, j);
      }
      if t[j] == CamStop {
        PlanCamStopAt(cfg, folder, j);
      }
    }
  }

  /** Different steps of the scan capture to different paths. */
  lemma ScanPathsDiffer(n: nat, folder: string, a: nat, b: nat)
    requires a < b < |SnakeOrder(n)|
    ensures CapturePath(folder, SnakeOrder(n)[a]) != CapturePath(folder, SnakeOrder(n)[b])
  {
    SnakeOrderDistinct(n, a, b);
    CapturePathInjective(folder, SnakeOrder(n)[a], SnakeOrder(n)[b]);
  }

  /** The scan writes each of its n² files exactly once. */
  lemma PlanNoPathRepeated(cfg: ScanConfig, folder: string)
    ensures NoPathRepeated(Plan(cfg, folder))
  {
    var t := Plan(cfg, folder);
    forall i, j | 0 <= i < j < |t| && t[i].Capture? && t[j].Capture?
      ensures t[i].path != t[j].path
    {
      var a := PlanCaptureStep(cfg, folder, i);
      var b := PlanCaptureStep(cfg, folder, j);
      ScanPathsDiffer(cfg.gridSize, folder, a, b);
    }
  }

  // ---------------------------------------------------------------------
  // Counting commands and captures
  // ---------------------------------------------------------------------

  lemma {:induction false} CountAppend(a: seq<Event>, b: seq<Event>)
    ensures CountCmds(a + b) == CountCmds(a) + CountCmds(b)
    ensures CountCaptures(a + b) == CountCaptures(a) + CountCaptures(b)
  {
    if |a| > 0 {
      assert (a + b)[0] == a[0];
      assert (a + b)[1..] == a[1..] + b;
      CountAppend(a[1..], b);
    } else {
      assert a + b == b;
    }
  }

  lemma {:induction false} CountScanEvents(cfg: ScanConfig, folder: string, pts: seq<Point>)
    ensures CountCmds(ScanEvents(cfg, folder, pts)) == |pts|
    ensures CountCaptures(ScanEvents(cfg, folder, pts)) == |pts|
  {
    if |pts| > 0 {
      var move, shot := Cmd(GridMoveCmd(cfg, pts[0])), Capture(CapturePath(folder, pts[0]));
      CountAppend([move, shot], ScanEvents(cfg, folder, pts[1..]));
      CountScanEvents(cfg, folder, pts[1..]);
      assert [move, shot][1..] == [shot];
      assert [shot][1..] == [];
    }
  }

  lemma CountBlocks(cfg: ScanConfig)
    ensures CountCmds(PreScan(cfg)) == 3 && CountCaptures(PreScan(cfg)) == 0
    ensures CountCmds(Shutdown(cfg)) == 1 && CountCaptures(Shutdown(cfg)) == 0
  {
    var pre := PreScan(cfg);
    assert CountCmds([pre[3]]) == 0 && CountCaptures([pre[3]]) == 0 by {
      assert [pre[3]][1..] == [];
    }
    assert CountCmds([pre[2], pre[3]]) == 1 && CountCaptures([pre[2], pre[3]]) == 0 by {
      assert [pre[2], pre[3]][1..] == [pre[3]];
    }
    assert CountCmds([pre[1], pre[2], pre[3]]) == 2 && CountCaptures([pre[1], pre[2], pre[3]]) == 0 by {
      assert [pre[1], pre[2], pre[3]][1..] == [pre[2], pre[3]];
    }
    assert pre[1..] == [pre[1], pre[2], pre[3]];
    var post := Shutdown(cfg);
    assert CountCmds([post[1]]) == 1 && CountCaptures([post[1]]) == 0 by {
      assert [post[1]][1..] == [];
    }
    assert post[1..] == [post[1]];
  }

  /** A session sends n² + 4 commands (three before the scan, one per grid
      point, the retreat) and captures n² images. */
  lemma PlanCounts(cfg: ScanConfig, folder: string)
    ensures CountCmds(Plan(cfg, folder)) == cfg.gridSize * cfg.gridSize + 4
    ensures CountCaptures(Plan(cfg, folder)) == cfg.gridSize * cfg.gridSize
  {
    var n := cfg.gridSize;
    var pre, scan, post := PreScan(cfg), ScanEvents(cfg, folder, SnakeOrder(n)), Shutdown(cfg);
    SnakeOrderLength(n);
    CountScanEvents(cfg, folder, SnakeOrder(n));
    CountBlocks(cfg);
    CountAppend(pre, scan);
    CountAppend(pre + scan, post);
  }

  // ---------------------------------------------------------------------
  // Where the machine is
  // ---------------------------------------------------------------------

  lemma PoseAfterPrefix(start: Pose, t: seq<Event>, j: nat)
    requires j < |t|
    ensures PoseAfter(start, t[..j + 1]) == Step(PoseAfter(start, t[..j]), t[j])
  {
    assert t[..j + 1][..j] == t[..j];
  }

  /** After homing and lifting, the commanded height stays at the lift height
      through the rest of the session, whatever position it started from. */
  lemma {:induction false} PlanHoldsLift(cfg: ScanConfig, folder: string, start: Pose, j: nat)
    requires 2 <= j <= |Plan(cfg, folder)|
    ensures PoseAfter(start, Plan(cfg, folder)[..j]).z == cfg.startZ
  {
    var t := Plan(cfg, folder);
    PlanEventAt(cfg, folder, j - 1);
    PoseAfterPrefix(start, t, j - 1);
    if j > 2 {
      PlanHoldsLift(cfg, folder, start, j - 1);
    }
  }

  /** At every capture the commanded position is over the target of the grid point
      named in the file, at the lift height. */
  lemma PlanCaptureAtTarget(cfg: ScanConfig, folder: string, start: Pose, k: nat)
    requires k < |SnakeOrder(cfg.gridSize)|
    ensures var t, p := Plan(cfg, folder), SnakeOrder(cfg.gridSize)[k];
      && 5 + 2 * k < |t|
      && t[5 + 2 * k] == Capture(CapturePath(folder, p))
      && PoseAfter(start, t[..5 + 2 * k]) == Pose(GridTarget(cfg, p).x, GridTarget(cfg, p).y, cfg.startZ)
  {
    var t := Plan(cfg, folder);
    PlanScanStep(cfg, folder, k);
    PlanHoldsLift(cfg, folder, start, 4 + 2 * k);
    PoseAfterMove(start, t, 4 + 2 * k, cfg, SnakeOrder(cfg.gridSize)[k]);
  }

  /** A grid move made at the lift height leaves the gantry over its target at that height. */
  lemma PoseAfterMove(start: Pose, t: seq<Event>, j: nat, cfg: ScanConfig, p: Point)
    requires j < |t| && t[j] == Cmd(GridMoveCmd(cfg, p))
    requires PoseAfter(start, t[..j]).z == cfg.startZ
    ensures PoseAfter(start, t[..j + 1]) == Pose(GridTarget(cfg, p).x, GridTarget(cfg, p).y, cfg.startZ)
  {
    PoseAfterPrefix(start, t, j);
  }

  /** The session's last command is to the start position at the lift height, wherever
      the gantry was before homing. */
  lemma PlanEndsAtStart(cfg: ScanConfig, folder: string, start: Pose)
    ensures PoseAfter(start, Plan(cfg, folder)) == Pose(cfg.offsetX, cfg.offsetY, cfg.startZ)
  {
    var t := Plan(cfg, folder);
    PlanEventAt(cfg, folder, |t| - 1);
    assert t[..|t|] == t;
    PoseAfterPrefix(start, t, |t| - 1);
  }

  // ---------------------------------------------------------------------
  // Running a plan against the controller's replies
  // ---------------------------------------------------------------------

  /** The end of a run: every event happened and `rest` is the input left
      unread, or the script is stuck waiting for the acknowledgement of the
      last command in `trace`. */
  datatype Outcome =
    | Completed(trace: seq<Event>, rest: seq<string>)
    | Blocked(trace: seq<Event>)

  /** Carries out `plan`: each command is written, then `send_command` reads
      `lines` up to and including the first acknowledgement; camera events
      read nothing. */
  function Execute(plan: seq<Event>, lines: seq<string>): (o: Outcome)
    ensures o.Completed? ==> o.trace == plan
    ensures o.Blocked? ==> 0 < |o.trace| <= |plan| && o.trace == plan[..|o.trace|] && o.trace[|o.trace| - 1].Cmd?
    decreases |plan|
  {
    if |plan| == 0 then Completed([], lines)
    else
      var rest :=
        if plan[0].Cmd? then
          match WaitAck(lines)
          case None => None
          case Some(k) => Some(lines[k..])
        else Some(lines);
      match rest
      case None => Blocked([plan[0]])
      case Some(more) =>
        match Execute(plan[1..], more)
        case Completed(t, r) => Completed([plan[0]] + t, r)
        case Blocked(t) => Blocked([plan[0]] + t)
  }

  /** A run completes exactly when the controller sends at least as many
      acknowledgements as the plan has commands; each command uses up one.
      A stuck run has written one command more than was acknowledged. */
  lemma {:induction false} ExecuteAckAccounting(plan: seq<Event>, lines: seq<string>)
    ensures Execute(plan, lines).Completed? <==> AckCount(lines) >= CountCmds(plan)
    ensures Execute(plan, lines).Completed? ==>
      AckCount(Execute(plan, lines).rest) == AckCount(lines) - CountCmds(plan)
    ensures Execute(plan, lines).Blocked? ==>
      CountCmds(Execute(plan, lines).trace) == AckCount(lines) + 1
    decreases |plan|
  {
    if |plan| > 0 {
      WaitAckConsumesOne(lines);
      if plan[0].Cmd? {
        if WaitAck(lines).Some? {
          var k := WaitAck(lines).value;
          ExecuteAckAccounting(plan[1..], lines[k..]);
          var o := Execute(plan[1..], lines[k..]);
          if o.Blocked? {
            assert ([plan[0]] + o.trace)[1..] == o.trace;
          }
        } else {
          assert [plan[0]][1..] == [];
        }
      } else {
        ExecuteAckAccounting(plan[1..], lines);
        var o := Execute(plan[1..], lines);
        if o.Blocked? {
          assert ([plan[0]] + o.trace)[1..] == o.trace;
        }
      }
    }
  }

  /** In a stuck run, every event but the last happened only after all
      commands before it had been acknowledged. */
  lemma BlockedEventsFollowAcks(plan: seq<Event>, lines: seq<string>, i: nat)
    requires Execute(plan, lines).Blocked?
    requires i + 1 < |Execute(plan, lines).trace|
    ensures CountCmds(Execute(plan, lines).trace[..i + 1]) <= AckCount(lines)
  {
    var t := BlockedTrace(plan, lines);
    CountBeforeLastCmd(t, i);
  }

  /** A stuck run ends in a command, and has written one command more than
      was acknowledged. */
  lemma BlockedTrace(plan: seq<Event>, lines: seq<string>) returns (t: seq<Event>)
    requires Execute(plan, lines).Blocked?
    ensures t == Execute(plan, lines).trace
    ensures 0 < |t| && t[|t| - 1].Cmd? && CountCmds(t) == AckCount(lines) + 1
  {
    t := Execute(plan, lines).trace;
    ExecuteAckAccounting(plan, lines);
  }

  /** A proper prefix of a trace ending in a command has fewer commands. */
  lemma CountBeforeLastCmd(t: seq<Event>, i: nat)
    requires i + 1 < |t| && t[|t| - 1].Cmd?
    ensures CountCmds(t[..i + 1]) < CountCmds(t)
  {
    var tail := t[i + 1..];
    CountAppend(t[..i + 1], tail);
    assert t == t[..i + 1] + tail;
    assert tail[|tail| - 1].Cmd?;
    CountLastCmd(tail);
  }

  lemma {:induction false} CountLastCmd(t: seq<Event>)
    requires |t| > 0 && t[|t| - 1].Cmd?
    ensures CountCmds(t) >= 1
  {
    if |t| > 1 {
      CountLastCmd(t[1..]);
    }
  }

  /** The script as a whole: the plan for the configuration, run against the
      lines the controller sends. */
  function RunScript(cfg: ScanConfig, folder: string, lines: seq<string>): Outcome {
    Execute(Plan(cfg, folder), lines)
  }

  /** A scan finishes exactly when the controller acknowledges all n² + 4
      commands, and then it is the plan; otherwise it is stuck on a command
      of the plan. */
  lemma RunScriptOutcome(cfg: ScanConfig, folder: string, lines: seq<string>)
    ensures var o, n := RunScript(cfg, folder, lines), cfg.gridSize;
      && (o.Completed? <==> AckCount(lines) >= n * n + 4)
      && (o.Completed? ==> o.trace == Plan(cfg, folder))
      && (o.Blocked? ==> o.trace == Plan(cfg, folder)[..|o.trace|] && o.trace[|o.trace| - 1].Cmd?)
  {
    PlanCounts(cfg, folder);
    ExecuteAckAccounting(Plan(cfg, folder), lines);
  }

  /** A run that gets stuck has started the camera only if the three
      pre-scan commands were all acknowledged. */
  lemma RunScriptCameraAfterAcks(cfg: ScanConfig, folder: string, lines: seq<string>)
    requires RunScript(cfg, folder, lines).Blocked?
    requires CamStart in RunScript(cfg, folder, lines).trace
    ensures AckCount(lines) >= 3
  {
    var t, tr := Plan(cfg, folder), RunScript(cfg, folder, lines).trace;
    var j :| 0 <= j < |tr| && tr[j] == CamStart;
    assert tr[j] == t[j];
    PlanCameraStartsAfterPreScan(cfg, folder);
    assert j == 3;
    BlockedEventsFollowAcks(t, lines, 3);
    assert tr[..4] == PreScan(cfg);
    CountBlocks(cfg);
  }

  /** With the constants the script ships with, a session sends 104 commands,
      saves 100 images, and last commands (50.8, 50.8, 127.0). */
  lemma ScriptConfigSession(folder: string, start: Pose)
    ensures CountCmds(Plan(ScriptConfig, folder)) == 104
    ensures CountCaptures(Plan(ScriptConfig, folder)) == 100
    ensures PoseAfter(start, Plan(ScriptConfig, folder)) == Pose(50.8, 50.8, 127.0)
  {
    PlanCounts(ScriptConfig, folder);
    PlanEndsAtStart(ScriptConfig, folder, start);
  }
}

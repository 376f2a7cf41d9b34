/** The gantry side of the scan: the configuration constants, the target
    position of a grid point, the motion commands the script sends, and the
    position each of them commands.

    Positions are exact `real` millimetres. The script computes them in
    binary floating point and prints them into G-code text; neither the
    rounding nor the text is modelled, so a command is kept as structured
    data rather than as the string that goes over the wire.
 */
module Gantry {
  import opened Wrappers
  import opened Grid

  /** The configuration block at the top of the script. */
  datatype ScanConfig = ScanConfig(
    step: real,       // STEP_MM: spacing between neighbouring capture points
    startZ: real,     // START_Z: lift height held during the whole scan
    gridSize: nat,    // GRID_SIZE: the grid is gridSize × gridSize
    offsetX: real,    // OFFSET_X: X of grid column 0
    offsetY: real     // OFFSET_Y: Y of grid row 0
  )

  /** The values the script ships with: half-inch steps, a five-inch lift,
      a 10×10 grid offset two inches from home. */
  const ScriptConfig := ScanConfig(12.7, 127.0, 10, 50.8, 50.8)

  /** Feed rate of the Z lift (mm/min). */
  const LiftFeed: nat := 1500

  /** Feed rate of every XY move, and of the final retreat (mm/min). */
  const TravelFeed: nat := 3000

  /** The commanded (logical) position, as the firmware tracks it. A move
      is acknowledged when it is queued, so the head may still be on its way. */
  datatype Pose = Pose(x: real, y: real, z: real)

  /** An XY target of the scan. */
  datatype Target = Target(x: real, y: real)

  /** The commands the script sends: `G28` (home all axes) and `G1` (linear
      move to the given coordinates; an absent axis keeps its position). */
  datatype GCode =
    | Home
    | LinearMove(x: Option<real>, y: Option<real>, z: Option<real>, feed: nat)

  /** The target of grid point `p`, computed afresh from its indices:
      columns run along X, rows along Y. */
  function GridTarget(cfg: ScanConfig, p: Point): Target {
    Target(cfg.offsetX + p.col as real * cfg.step, cfg.offsetY + p.row as real * cfg.step)
  }

  /** `G28` */
  function HomeCmd(): GCode {
    Home
  }

  /** `G1 Z{START_Z} F1500` */
  function LiftCmd(cfg: ScanConfig): GCode {
    LinearMove(None, None, Some(cfg.startZ), LiftFeed)
  }

  /** `G1 X{OFFSET_X} Y{OFFSET_Y} F3000` */
  function StartCmd(cfg: ScanConfig): GCode {
    LinearMove(Some(cfg.offsetX), Some(cfg.offsetY), None, TravelFeed)
  }

  /** `G1 X{x_pos} Y{y_pos} F3000` for grid point `p`. */
  function GridMoveCmd(cfg: ScanConfig, p: Point): GCode {
    var t := GridTarget(cfg, p);
    LinearMove(Some(t.x), Some(t.y), None, TravelFeed)
  }

  /** `G1 X{OFFSET_X} Y{OFFSET_Y} Z{START_Z} F3000` */
  function RetreatCmd(cfg: ScanConfig): GCode {
    LinearMove(Some(cfg.offsetX), Some(cfg.offsetY), Some(cfg.startZ), TravelFeed)
  }

  /** The commanded position once the firmware accepts `g` at commanded position `pose`.
      Homing brings every axis to the machine origin. */
  function Apply(pose: Pose, g: GCode): Pose {
    match g
    case Home => Pose(0.0, 0.0, 0.0)
    case LinearMove(x, y, z, _) =>
      Pose(
        match x case Some(v) => v case None => pose.x,
        match y case Some(v) => v case None => pose.y,
        match z case Some(v) => v case None => pose.z)
  }

  /** A command that fixes every axis (homing, or a move naming X, Y and Z)
      leads to the same position whatever the position before it. */
  lemma ApplyForgetsStart(p: Pose, q: Pose, g: GCode)
    requires g.Home? || (g.LinearMove? && g.x.Some? && g.y.Some? && g.z.Some?)
    ensures Apply(p, g) == Apply(q, g)
  {
  }

  /** Positions are absolute: sending the same command twice moves no further
      than sending it once. */
  lemma ApplyIdempotent(pose: Pose, g: GCode)
    ensures Apply(Apply(pose, g), g) == Apply(pose, g)
  {
  }

  // ---------------------------------------------------------------------
  // Properties of the targets
  // ---------------------------------------------------------------------

  /** Grid point (0, 0) is the start position the gantry is moved to before the scan. */
  lemma GridOriginIsStart(cfg: ScanConfig)
    ensures GridTarget(cfg, Point(0, 0)) == Target(cfg.offsetX, cfg.offsetY)
    ensures Apply(Pose(cfg.offsetX, cfg.offsetY, cfg.startZ), GridMoveCmd(cfg, Point(0, 0)))
         == Pose(cfg.offsetX, cfg.offsetY, cfg.startZ)
  {
  }

  /** With a positive step, distinct grid points have distinct targets. */
  lemma GridTargetInjective(cfg: ScanConfig, p: Point, q: Point)
    requires cfg.step > 0.0
    ensures GridTarget(cfg, p) == GridTarget(cfg, q) <==> p == q
  {
    if GridTarget(cfg, p) == GridTarget(cfg, q) {
      assert (p.col as real - q.col as real) * cfg.step == 0.0;
      assert (p.row as real - q.row as real) * cfg.step == 0.0;
    }
  }

  /** Targets of neighbouring grid points are exactly one step apart along one
      axis and equal along the other; in particular stepping a column adds
      exactly `step` to X, so computing each target afresh agrees with
      accumulating steps in exact arithmetic. */
  lemma AdjacentTargetsOneStep(cfg: ScanConfig, p: Point, q: Point)
    requires Adjacent(p, q)
    ensures var a, b := GridTarget(cfg, p), GridTarget(cfg, q);
      || (a.y == b.y && (b.x == a.x + cfg.step || a.x == b.x + cfg.step))
      || (a.x == b.x && (b.y == a.y + cfg.step || a.y == b.y + cfg.step))
  {
  }

  /** Every target of an n×n scan with a positive step lies in the rectangle
      from the offset to the offset plus (n-1) steps on each axis. */
  lemma GridTargetInScanArea(cfg: ScanConfig, p: Point)
    requires cfg.step > 0.0
    requires InGrid(cfg.gridSize, p)
    ensures var t, span := GridTarget(cfg, p), (cfg.gridSize - 1) as real * cfg.step;
      && cfg.offsetX <= t.x <= cfg.offsetX + span
      && cfg.offsetY <= t.y <= cfg.offsetY + span
  {
    var span := (cfg.gridSize - 1) as real * cfg.step;
    assert p.col as real * cfg.step <= span by {
      assert (span - p.col as real * cfg.step) == ((cfg.gridSize - 1 - p.col) as real) * cfg.step;
    }
    assert p.row as real * cfg.step <= span by {
      assert (span - p.row as real * cfg.step) == ((cfg.gridSize - 1 - p.row) as real) * cfg.step;
    }
  }
}

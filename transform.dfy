/**
  The pseudo-positioner transform of lens.py: forward maps a requested
  (calib_z, beam_size) to a stage position (x, y, z) on the calibration line,
  inverse maps a stage z back to the lens-to-focus distance the beam-size model
  is evaluated at.
*/
module Transform {
  import opened Wrappers

  /** A position of the three stage motors. */
  datatype RealPosition = RealPosition(x: real, y: real, z: real)

  /** A position of the two logical axes. */
  datatype PseudoPosition = PseudoPosition(calibZ: real, beamSize: real)

  /** The two alignment presets of one motor, align_position_one and align_position_two; either may be unset. */
  datatype AxisPresets = AxisPresets(one: Option<real>, two: Option<real>)

  /** The alignment presets of the x, y and z motors, as align() saves them. */
  datatype Presets = Presets(x: AxisPresets, y: AxisPresets, z: AxisPresets)

  /** The lens offset and the direction of the z motor relative to the beam (_zoffset, _zdir). */
  datatype StageGeometry = StageGeometry(zOffset: real, zDir: real)

  /** Why forward gives no stage position. */
  datatype TransformError =
    | CalibrationMissing     // a preset attribute is missing: the error is logged and None returned
    | DegenerateCalibration  // both presets have the same z: the slope division raises

  /** The stage z for a lens distance, line 103: (dist - zoffset) * zdir * 1000. */
  function DistanceToZ(dist: real, g: StageGeometry): (z: real)
    ensures g.zDir != 0.0 ==> z / (1000.0 * g.zDir) + g.zOffset == dist
    ensures g.zDir == 0.0 ==> z == 0.0
  {
    (dist - g.zOffset) * g.zDir * 1000.0
  }

  /** The lens distance for a stage z, line 125: z / 1000 * zdir + zoffset. */
  function ZToDistance(z: real, g: StageGeometry): (d: real)
    ensures (d - g.zOffset) * 1000.0 == z * g.zDir
  {
    z / 1000.0 * g.zDir + g.zOffset
  }

  /** All six presets are set. */
  predicate Complete(p: Presets) {
    p.x.one.Some? && p.y.one.Some? && p.z.one.Some? &&
    p.x.two.Some? && p.y.two.Some? && p.z.two.Some?
  }

  /** The first calibration point. */
  function PointOne(p: Presets): RealPosition
    requires Complete(p)
  {
    RealPosition(p.x.one.value, p.y.one.value, p.z.one.value)
  }

  /** The second calibration point. */
  function PointTwo(p: Presets): RealPosition
    requires Complete(p)
  {
    RealPosition(p.x.two.value, p.y.two.value, p.z.two.value)
  }

  /** q lies on the straight line through p1 and p2 (stated without division). */
  predicate OnLine(q: RealPosition, p1: RealPosition, p2: RealPosition) {
    (q.x - p1.x) * (p2.z - p1.z) == (p2.x - p1.x) * (q.z - p1.z) &&
    (q.y - p1.y) * (p2.z - p1.z) == (p2.y - p1.y) * (q.z - p1.z)
  }

  /** One coordinate of lines 113-114: ((a1 - a2) / (z1 - z2)) * (z - z1) + a1. */
  function InterpolateAxis(a1: real, a2: real, z1: real, z2: real, z: real): (a: real)
    requires z1 != z2
    ensures (a - a1) * (z2 - z1) == (a2 - a1) * (z - z1)
    ensures z == z1 ==> a == a1
    ensures z == z2 ==> a == a2
  {
    var slope := (a1 - a2) / (z1 - z2);
    assert slope * (z1 - z2) == a1 - a2;
    assert (slope * (z - z1)) * (z2 - z1) == (a2 - a1) * (z - z1) by {
      calc {
        (slope * (z - z1)) * (z2 - z1);
        == (slope * (z1 - z2)) * (z1 - z);
        == (a1 - a2) * (z1 - z);
        == (a2 - a1) * (z - z1);
      }
    }
    slope * (z - z1) + a1
  }

  /** The stage point on the calibration line through p1 and p2 at height z. */
  function Interpolate(p1: RealPosition, p2: RealPosition, z: real): (q: RealPosition)
    requires p1.z != p2.z
    ensures q.z == z && OnLine(q, p1, p2)
    ensures z == p1.z ==> q == p1
    ensures z == p2.z ==> q == p2
  {
    RealPosition(InterpolateAxis(p1.x, p2.x, p1.z, p2.z, z), InterpolateAxis(p1.y, p2.y, p1.z, p2.z, z), z)
  }

  /** The target z of forward: calib_z when the beam size is unchanged, else the z of the distance root. */
  function TargetZ(pseudo: PseudoPosition, sizeUnchanged: bool, dist: real, g: StageGeometry): (t: real)
    ensures sizeUnchanged ==> t == pseudo.calibZ
    ensures !sizeUnchanged && (g.zDir == 1.0 || g.zDir == -1.0) ==> ZToDistance(t, g) == dist
  {
    if sizeUnchanged then pseudo.calibZ else DistanceToZ(dist, g)
  }

  /**
    forward (lines 97-121). sizeUnchanged is the outcome of the np.isclose test
    of line 99; dist is the distance root the beam-size model gives for the
    requested size, used only when the size changes.
  */
  function Forward(pseudo: PseudoPosition, sizeUnchanged: bool, dist: real, g: StageGeometry, p: Presets)
    : (r: Result<RealPosition, TransformError>)
    ensures r == Err(CalibrationMissing) <==> !Complete(p)
    ensures r == Err(DegenerateCalibration) <==> Complete(p) && PointOne(p).z == PointTwo(p).z
    ensures r.Ok? ==> Complete(p) && r.value.z == TargetZ(pseudo, sizeUnchanged, dist, g)
    ensures r.Ok? ==> OnLine(r.value, PointOne(p), PointTwo(p))
  {
    var zPos := TargetZ(pseudo, sizeUnchanged, dist, g);
    if !Complete(p) then Err(CalibrationMissing)
    else if PointOne(p).z == PointTwo(p).z then Err(DegenerateCalibration)
    else Ok(Interpolate(PointOne(p), PointTwo(p), zPos))
  }

  /**
    inverse (lines 123-129). beamFwhm stands for calcBeamFWHM with the stack's
    energy, lens set and unfocused size fixed: the size at a lens distance.
  */
  function Inverse(q: RealPosition, g: StageGeometry, beamFwhm: real -> real): (pseudo: PseudoPosition)
    ensures pseudo.calibZ == q.z
    ensures pseudo.beamSize == beamFwhm(ZToDistance(q.z, g))
  {
    PseudoPosition(q.z, beamFwhm(ZToDistance(q.z, g)))
  }

  // ---------------------------------------------------------------------------
  // Properties

  /** A point on the calibration line is determined by its z. */
  lemma OnLineUnique(q1: RealPosition, q2: RealPosition, p1: RealPosition, p2: RealPosition)
    requires p1.z != p2.z && q1.z == q2.z
    requires OnLine(q1, p1, p2) && OnLine(q2, p1, p2)
    ensures q1 == q2
  {
    var d := p2.z - p1.z;
    assert (q1.x - q2.x) * d == 0.0;
    assert (q1.y - q2.y) * d == 0.0;
  }

  /** Forward at the z of a calibration point gives that point. */
  lemma ForwardAtPresets(pseudo: PseudoPosition, dist: real, g: StageGeometry, p: Presets)
    requires Complete(p) && PointOne(p).z != PointTwo(p).z
    ensures pseudo.calibZ == PointOne(p).z ==> Forward(pseudo, true, dist, g, p) == Ok(PointOne(p))
    ensures pseudo.calibZ == PointTwo(p).z ==> Forward(pseudo, true, dist, g, p) == Ok(PointTwo(p))
  {
  }

  /** Presets (0, 0, 0) and (10, 20, 100) with calib_z 50 give the midpoint (5, 10, 50). */
  lemma MidpointExample(beamSize: real, dist: real, g: StageGeometry)
    ensures Forward(PseudoPosition(50.0, beamSize), true, dist, g,
                    Presets(AxisPresets(Some(0.0), Some(10.0)),
                            AxisPresets(Some(0.0), Some(20.0)),
                            AxisPresets(Some(0.0), Some(100.0))))
            == Ok(RealPosition(5.0, 10.0, 50.0))
  {
  }

  /** Line 103 followed by line 125 returns the distance exactly when zdir is +1 or -1 (or dist is the offset). */
  lemma DistanceRoundTrip(dist: real, g: StageGeometry)
    ensures ZToDistance(DistanceToZ(dist, g), g) == g.zOffset + (dist - g.zOffset) * (g.zDir * g.zDir)
    ensures ZToDistance(DistanceToZ(dist, g), g) == dist <==> g.zDir * g.zDir == 1.0 || dist == g.zOffset
  {
    var e := dist - g.zOffset;
    var s := g.zDir * g.zDir;
    assert DistanceToZ(dist, g) / 1000.0 == e * g.zDir;
    assert ZToDistance(DistanceToZ(dist, g), g) == g.zOffset + e * s;
    assert e * (s - 1.0) == e * s - e;
    assert e * (s - 1.0) == 0.0 <==> e == 0.0 || s == 1.0;
  }

  /** Line 125 followed by line 103 returns the stage z exactly when zdir is +1 or -1 (or z is 0). */
  lemma ZRoundTrip(z: real, g: StageGeometry)
    ensures DistanceToZ(ZToDistance(z, g), g) == z * (g.zDir * g.zDir)
    ensures DistanceToZ(ZToDistance(z, g), g) == z <==> g.zDir * g.zDir == 1.0 || z == 0.0
  {
    var s := g.zDir * g.zDir;
    assert ZToDistance(z, g) - g.zOffset == z / 1000.0 * g.zDir;
    assert DistanceToZ(ZToDistance(z, g), g) == (z / 1000.0 * g.zDir) * g.zDir * 1000.0;
    assert (z / 1000.0 * g.zDir) * g.zDir * 1000.0 == z * s;
    assert z * s == z <==> z * (s - 1.0) == 0.0;
  }

  /**
    Reading back a position forward produced: the calib_z is the target z, and
    with zdir = +1 or -1 the beam-size model is evaluated at the very distance
    root forward started from when the size changed, or at the distance of
    calib_z when it did not.
  */
  lemma ForwardInverse(pseudo: PseudoPosition, sizeUnchanged: bool, dist: real, g: StageGeometry,
                       p: Presets, beamFwhm: real -> real)
    requires g.zDir == 1.0 || g.zDir == -1.0
    requires Forward(pseudo, sizeUnchanged, dist, g, p).Ok?
    ensures sizeUnchanged ==>
      Inverse(Forward(pseudo, sizeUnchanged, dist, g, p).value, g, beamFwhm)
        == PseudoPosition(pseudo.calibZ, beamFwhm(ZToDistance(pseudo.calibZ, g)))
    ensures !sizeUnchanged ==>
      Inverse(Forward(pseudo, sizeUnchanged, dist, g, p).value, g, beamFwhm)
        == PseudoPosition(DistanceToZ(dist, g), beamFwhm(dist))
  {
    DistanceRoundTrip(dist, g);
  }
}

/** Keyboard movement flags and the pointer-locked frame update
    (components/expo/PlayerControls.tsx). */
module PlayerControls {

  import opened Optional

  const DAMPING: real := 10.0
  const ACCELERATION: real := 100.0
  const EYE_HEIGHT: real := 1.7
  /** The speed at which damping cancels acceleration on one axis:
      ACCELERATION / DAMPING. */
  const TERMINAL_SPEED: real := 10.0
  const TERMINAL_SPEED_SQUARED: real := 100.0

  /** The four held-key flags. */
  datatype MoveFlags = MoveFlags(forward: bool, backward: bool, left: bool, right: bool)

  const NO_KEYS: MoveFlags := MoveFlags(false, false, false, false)

  datatype Movement = Forward | Backward | Left | Right

  datatype KeyEvent = KeyDown(code: string) | KeyUp(code: string)

  /** Which flag a key code drives: W/A/S/D and the arrow keys. */
  function Binding(code: string): Option<Movement> {
    if code == "ArrowUp" || code == "KeyW" then Some(Forward)
    else if code == "ArrowLeft" || code == "KeyA" then Some(Left)
    else if code == "ArrowDown" || code == "KeyS" then Some(Backward)
    else if code == "ArrowRight" || code == "KeyD" then Some(Right)
    else None
  }

  function Flag(f: MoveFlags, m: Movement): bool {
    match m
    case Forward => f.forward
    case Backward => f.backward
    case Left => f.left
    case Right => f.right
  }

  function WithFlag(f: MoveFlags, m: Movement, v: bool): (r: MoveFlags)
    ensures Flag(r, m) == v
    ensures forall m' :: m' != m ==> Flag(r, m') == Flag(f, m')
  {
    match m
    case Forward => f.(forward := v)
    case Backward => f.(backward := v)
    case Left => f.(left := v)
    case Right => f.(right := v)
  }

  /** `onKeyDown` and `onKeyUp`: a bound key sets (down) or clears (up) its
      flag; any other key changes nothing. */
  function OnKey(f: MoveFlags, e: KeyEvent): (r: MoveFlags)
    ensures Binding(e.code).None? ==> r == f
    ensures Binding(e.code).Some? ==> Flag(r, Binding(e.code).value) == e.KeyDown?
    ensures Binding(e.code).Some? ==> r == WithFlag(f, Binding(e.code).value, e.KeyDown?)
  {
    match Binding(e.code)
    case None => f
    case Some(m) => WithFlag(f, m, e.KeyDown?)
  }

  /** The eight bound codes and the flag each drives. */
  lemma BindingTable()
    ensures Binding("KeyW") == Binding("ArrowUp") == Some(Forward)
    ensures Binding("KeyA") == Binding("ArrowLeft") == Some(Left)
    ensures Binding("KeyS") == Binding("ArrowDown") == Some(Backward)
    ensures Binding("KeyD") == Binding("ArrowRight") == Some(Right)
  {
  }

  /** Both keys of each pair drive their flag, and the matching release
      clears it. */
  lemma KeyPairs(f: MoveFlags)
    ensures OnKey(f, KeyDown("KeyW")) == OnKey(f, KeyDown("ArrowUp")) == f.(forward := true)
    ensures OnKey(f, KeyUp("KeyW")) == OnKey(f, KeyUp("ArrowUp")) == f.(forward := false)
    ensures OnKey(f, KeyDown("KeyA")) == OnKey(f, KeyDown("ArrowLeft")) == f.(left := true)
    ensures OnKey(f, KeyUp("KeyA")) == OnKey(f, KeyUp("ArrowLeft")) == f.(left := false)
    ensures OnKey(f, KeyDown("KeyS")) == OnKey(f, KeyDown("ArrowDown")) == f.(backward := true)
    ensures OnKey(f, KeyUp("KeyS")) == OnKey(f, KeyUp("ArrowDown")) == f.(backward := false)
    ensures OnKey(f, KeyDown("KeyD")) == OnKey(f, KeyDown("ArrowRight")) == f.(right := true)
    ensures OnKey(f, KeyUp("KeyD")) == OnKey(f, KeyUp("ArrowRight")) == f.(right := false)
  {
    BindingTable();
  }

  /** Pressing and releasing a key puts every flag back as it was, except
      that the key's own flag ends cleared even if its partner key is still
      held (the two keys share one flag). */
  lemma PressReleaseRestores(f: MoveFlags, code: string)
    requires Binding(code).Some?
    ensures OnKey(OnKey(f, KeyDown(code)), KeyUp(code)) == WithFlag(f, Binding(code).value, false)
  {
  }

  /** `Number(pos) - Number(neg)`. */
  function Axis(pos: bool, neg: bool): (d: int)
    ensures -1 <= d <= 1
    ensures d == 0 <==> pos == neg
    ensures d == 1 <==> pos && !neg
  {
    (if pos then 1 else 0) - (if neg then 1 else 0)
  }

  datatype Planar = Planar(x: real, z: real)

  /** The direction before normalisation: x from right/left, z from
      forward/backward. */
  function RawDirection(f: MoveFlags): Planar {
    Planar(Axis(f.right, f.left) as real, Axis(f.forward, f.backward) as real)
  }

  /** `Vector3.normalize` on a raw direction, whose components are -1, 0 or
      1: unchanged when one axis is zero, scaled by `diag` (the library's
      1/sqrt(2)) when both are non-zero. */
  function Normalize(raw: Planar, diag: real): Planar {
    if raw.x != 0.0 && raw.z != 0.0 then Planar(raw.x * diag, raw.z * diag) else raw
  }

  /** `diag` is the positive square root of 1/2, the factor by which
      `normalize` scales a diagonal direction. */
  predicate IsDiagonalScale(diag: real) {
    0.0 < diag && 2.0 * diag * diag == 1.0
  }

  /** `v - v * 10 * delta`. */
  function Damp(v: real, delta: real): real {
    v - v * DAMPING * delta
  }

  /** What the component keeps between frames: the held-key flags and the
      velocity. */
  datatype ControlsState = ControlsState(flags: MoveFlags, velocity: Planar)

  /** The state of a freshly mounted component: no key held, at rest. */
  const MOUNTED: ControlsState := ControlsState(NO_KEYS, Planar(0.0, 0.0))

  /** Distances passed to `moveRight` and `moveForward`. */
  datatype Motion = Motion(right: real, forward: real)

  datatype FrameResult = FrameResult(velocity: Planar, motion: Option<Motion>, eyeY: real)

  /** The velocity update of a locked frame: damping on both axes, then the
      normalised direction's push on each axis one of whose keys is held.
      Velocity is kept negated with respect to the motion it causes. */
  function Accelerate(v: Planar, f: MoveFlags, delta: real, diag: real): (nv: Planar)
    requires IsDiagonalScale(diag)
    // an axis is only pushed while one of its keys is held, and opposing keys
    // cancel
    ensures f.forward == f.backward ==> nv.z == Damp(v.z, delta)
    ensures f.left == f.right ==> nv.x == Damp(v.x, delta)
  {
    var dir := Normalize(RawDirection(f), diag);
    var vz := if f.forward || f.backward then Damp(v.z, delta) - dir.z * ACCELERATION * delta else Damp(v.z, delta);
    var vx := if f.left || f.right then Damp(v.x, delta) - dir.x * ACCELERATION * delta else Damp(v.x, delta);
    Planar(vx, vz)
  }

  /** The frame callback. `locked` is the pointer-lock state, `eyeY` the
      camera height before the frame. */
  function Frame(v: Planar, f: MoveFlags, locked: bool, delta: real, eyeY: real, diag: real): (r: FrameResult)
    requires IsDiagonalScale(diag)
    ensures !locked ==> r == FrameResult(v, None, eyeY)
    ensures locked ==> r.eyeY == EYE_HEIGHT
    ensures locked ==> r.motion.Some? && r.motion.value.right == -(r.velocity.x * delta)
    ensures locked ==> r.motion.Some? && r.motion.value.forward == -(r.velocity.z * delta)
    ensures locked && f.forward == f.backward ==> r.velocity.z == Damp(v.z, delta)
    ensures locked && f.left == f.right ==> r.velocity.x == Damp(v.x, delta)
  {
    if !locked then FrameResult(v, None, eyeY)
    else
      var nv := Accelerate(v, f, delta, diag);
      FrameResult(nv, Some(Motion(-(nv.x * delta), -(nv.z * delta))), EYE_HEIGHT)
  }

  /** A held key pushes its axis the right way on top of damping: forward and
      right lower the (negated) velocity, backward and left raise it. */
  lemma HeldKeyPushesAxis(v: Planar, f: MoveFlags, delta: real, eyeY: real, diag: real)
    requires IsDiagonalScale(diag) && 0.0 < delta
    ensures var r := Frame(v, f, true, delta, eyeY, diag);
            && (f.forward && !f.backward ==> r.velocity.z < Damp(v.z, delta))
            && (f.backward && !f.forward ==> r.velocity.z > Damp(v.z, delta))
            && (f.right && !f.left ==> r.velocity.x < Damp(v.x, delta))
            && (f.left && !f.right ==> r.velocity.x > Damp(v.x, delta))
  {
    var dir := Normalize(RawDirection(f), diag);
    PushSign(dir.z, delta);
    PushSign(dir.x, delta);
  }

  lemma PushSign(d: real, delta: real)
    requires 0.0 < delta
    ensures d > 0.0 ==> d * ACCELERATION * delta > 0.0
    ensures d < 0.0 ==> d * ACCELERATION * delta < 0.0
  {
    assert ACCELERATION * delta > 0.0;
    assert d * ACCELERATION * delta == d * (ACCELERATION * delta);
  }

  /** With a frame time of at most 0.1 s, an axis that starts within the
      terminal speed stays within it, whatever keys are held. */
  lemma AxesStayWithinTerminal(v: Planar, f: MoveFlags, delta: real, eyeY: real, diag: real)
    requires IsDiagonalScale(diag)
    requires 0.0 <= delta <= 0.1
    requires -TERMINAL_SPEED <= v.x <= TERMINAL_SPEED && -TERMINAL_SPEED <= v.z <= TERMINAL_SPEED
    ensures var r := Frame(v, f, true, delta, eyeY, diag);
            -TERMINAL_SPEED <= r.velocity.x <= TERMINAL_SPEED && -TERMINAL_SPEED <= r.velocity.z <= TERMINAL_SPEED
  {
    DirectionBounded(f, diag);
    var dir := Normalize(RawDirection(f), diag);
    AxisWithinTerminal(v.x, dir.x, delta);
    AxisWithinTerminal(v.z, dir.z, delta);
    assert Frame(v, f, true, delta, eyeY, diag).velocity == Accelerate(v, f, delta, diag);
  }

  /** With a frame time of at most 0.1 s, a planar speed within the terminal
      speed stays within it, whatever keys are held: the damped velocity
      keeps the fraction 1 - 10·delta of the speed and the push adds at most
      100·delta, which sum to at most 10. */
  lemma SpeedStaysWithinTerminal(v: Planar, f: MoveFlags, delta: real, eyeY: real, diag: real)
    requires IsDiagonalScale(diag)
    requires 0.0 <= delta <= 0.1
    requires SquaredSpeed(v) <= TERMINAL_SPEED_SQUARED
    ensures SquaredSpeed(Frame(v, f, true, delta, eyeY, diag).velocity) <= TERMINAL_SPEED_SQUARED
  {
    var dir := Normalize(RawDirection(f), diag);
    DirectionUnit(f, diag);
    AccelerateIsDampAndPush(v, f, delta, diag);
    var nv := Accelerate(v, f, delta, diag);
    DiscStep(v, dir, 1.0 - 10.0 * delta, 100.0 * delta, nv);
    assert Frame(v, f, true, delta, eyeY, diag).velocity == nv;
  }

  function SquaredSpeed(v: Planar): real {
    v.x * v.x + v.z * v.z
  }

  /** The velocity update is the old velocity scaled by 1 - 10·delta minus
      the whole normalised direction scaled by 100·delta: an axis none of
      whose keys is held has a zero direction component anyway. */
  lemma AccelerateIsDampAndPush(v: Planar, f: MoveFlags, delta: real, diag: real)
    requires IsDiagonalScale(diag)
    ensures var dir := Normalize(RawDirection(f), diag);
            Accelerate(v, f, delta, diag) ==
            Planar((1.0 - 10.0 * delta) * v.x - 100.0 * delta * dir.x,
                   (1.0 - 10.0 * delta) * v.z - 100.0 * delta * dir.z)
  {
    var dir := Normalize(RawDirection(f), diag);
    DirectionUnit(f, diag);
    assert Damp(v.x, delta) == (1.0 - 10.0 * delta) * v.x;
    assert Damp(v.z, delta) == (1.0 - 10.0 * delta) * v.z;
    assert dir.x * ACCELERATION * delta == 100.0 * delta * dir.x;
    assert dir.z * ACCELERATION * delta == 100.0 * delta * dir.z;
  }

  /** The disc of radius 10 is closed under damping by `keep` followed by a
      push of length at most `push`, when 10·keep + push is 10. */
  lemma DiscStep(v: Planar, p: Planar, keep: real, push: real, nv: Planar)
    requires 0.0 <= keep && 0.0 <= push && 10.0 * keep + push == 10.0
    requires SquaredSpeed(v) <= TERMINAL_SPEED_SQUARED && SquaredSpeed(p) <= 1.0
    requires nv == Planar(keep * v.x - push * p.x, keep * v.z - push * p.z)
    ensures SquaredSpeed(nv) <= TERMINAL_SPEED_SQUARED
  {
    DiscBound(v.x, v.z, p.x, p.z, keep, push, nv.x, nv.z);
  }

  /** The disc step on the components. */
  lemma DiscBound(vx: real, vz: real, px: real, pz: real, keep: real, push: real, nx: real, nz: real)
    requires 0.0 <= keep && 0.0 <= push && 10.0 * keep + push == 10.0
    requires vx * vx + vz * vz <= 100.0 && px * px + pz * pz <= 1.0
    requires nx == keep * vx - push * px && nz == keep * vz - push * pz
    ensures SquaredSpeed(Planar(nx, nz)) <= TERMINAL_SPEED_SQUARED
  {
    var sv := vx * vx + vz * vz;
    var sp := px * px + pz * pz;
    var dot := vx * px + vz * pz;
    var n2 := nx * nx + nz * nz;
    CauchySchwarz(vx, vz, px, pz, sv, sp, dot);
    SquareNonNegative(px);
    SquareNonNegative(pz);
    Expand(vx, vz, px, pz, keep, push, nx, nz, n2, sv, sp, dot);
    DiscArith(n2, sv, sp, dot, keep, push);
    WithinDisc(nx, nz);
  }

  /** Squared length of a planar vector given by its components. */
  lemma WithinDisc(nx: real, nz: real)
    requires nx * nx + nz * nz <= 100.0
    ensures SquaredSpeed(Planar(nx, nz)) <= TERMINAL_SPEED_SQUARED
  {
  }

  /** Cauchy-Schwarz in the plane, by Lagrange's identity. */
  lemma CauchySchwarz(vx: real, vz: real, px: real, pz: real, sv: real, sp: real, dot: real)
    requires sv == vx * vx + vz * vz && sp == px * px + pz * pz && dot == vx * px + vz * pz
    ensures dot * dot <= sv * sp
  {
    var w := vx * pz - vz * px;
    assert sv * sp - dot * dot == w * w;
    SquareNonNegative(w);
  }

  /** The squared length of `keep·v - push·p`, expanded. */
  lemma Expand(vx: real, vz: real, px: real, pz: real, keep: real, push: real, nx: real, nz: real,
               n2: real, sv: real, sp: real, dot: real)
    requires nx == keep * vx - push * px && nz == keep * vz - push * pz
    requires n2 == nx * nx + nz * nz
    requires sv == vx * vx + vz * vz && sp == px * px + pz * pz && dot == vx * px + vz * pz
    ensures n2 == (keep * keep) * sv - 2.0 * (keep * push) * dot + (push * push) * sp
  {
  }

  /** The arithmetic of the disc step, over the squared lengths `sv`, `sp`,
      `n2` and the dot product `dot` alone. */
  lemma DiscArith(n2: real, sv: real, sp: real, dot: real, keep: real, push: real)
    requires 0.0 <= keep && 0.0 <= push && 10.0 * keep + push == 10.0
    requires sv <= 100.0 && 0.0 <= sp <= 1.0 && dot * dot <= sv * sp
    requires n2 == (keep * keep) * sv - 2.0 * (keep * push) * dot + (push * push) * sp
    ensures n2 <= 100.0
  {
    DotAtLeast(dot, sv, sp);
    MulNonNegative(keep, keep);
    MulNonNegative(keep, push);
    MulNonNegative(push, push);
    Bound(keep * keep, keep * push, push * push, sv, sp, dot);
    assert (10.0 * keep + push) * (10.0 * keep + push) == 100.0 * (keep * keep) + 20.0 * (keep * push) + push * push;
  }

  /** A dot product with a vector of length at most 1 is at least -10 when
      the other vector lies in the disc of radius 10. */
  lemma DotAtLeast(dot: real, sv: real, sp: real)
    requires dot * dot <= sv * sp && sv <= 100.0 && 0.0 <= sp <= 1.0
    ensures -10.0 <= dot
  {
    MulNonNegative(100.0 - sv, sp);
    assert sv * sp <= 100.0 * sp;
    if dot < -10.0 {
      MulPositive(-dot - 10.0, -dot + 10.0);
      assert false;
    }
  }

  /** Termwise bound of the expanded square by (10·keep + push)². */
  lemma Bound(kk: real, ks: real, ss: real, sv: real, sp: real, dot: real)
    requires 0.0 <= kk && 0.0 <= ks && 0.0 <= ss
    requires sv <= 100.0 && sp <= 1.0 && -10.0 <= dot
    ensures kk * sv - 2.0 * ks * dot + ss * sp <= 100.0 * kk + 20.0 * ks + ss
  {
    MulNonNegative(kk, 100.0 - sv);
    MulNonNegative(ss, 1.0 - sp);
    MulNonNegative(ks, dot + 10.0);
  }

  /** `diag` is below 1. */
  lemma DiagBelowOne(diag: real)
    requires IsDiagonalScale(diag)
    ensures diag < 1.0
  {
    if diag >= 1.0 {
      MulNonNegative(diag - 1.0, diag);
      assert false;
    }
  }

  /** Each component of the normalised direction lies in [-1, 1]. */
  lemma DirectionBounded(f: MoveFlags, diag: real)
    requires IsDiagonalScale(diag)
    ensures -1.0 <= Normalize(RawDirection(f), diag).x <= 1.0
    ensures -1.0 <= Normalize(RawDirection(f), diag).z <= 1.0
  {
    DiagBelowOne(diag);
    var raw := RawDirection(f);
    if raw.x != 0.0 && raw.z != 0.0 {
      MulNonNegative(1.0 - raw.x, diag);
      MulNonNegative(1.0 + raw.x, diag);
      MulNonNegative(1.0 - raw.z, diag);
      MulNonNegative(1.0 + raw.z, diag);
    }
  }

  /** The normalised direction has length at most 1, and no component on
      an axis none of whose keys is held. */
  lemma DirectionUnit(f: MoveFlags, diag: real)
    requires IsDiagonalScale(diag)
    ensures SquaredSpeed(Normalize(RawDirection(f), diag)) <= 1.0
    ensures !(f.left || f.right) ==> Normalize(RawDirection(f), diag).x == 0.0
    ensures !(f.forward || f.backward) ==> Normalize(RawDirection(f), diag).z == 0.0
  {
    var raw := RawDirection(f);
    if raw.x != 0.0 && raw.z != 0.0 {
      assert raw.x * raw.x == 1.0 && raw.z * raw.z == 1.0;
      assert (raw.x * diag) * (raw.x * diag) == (raw.x * raw.x) * (diag * diag);
      assert (raw.z * diag) * (raw.z * diag) == (raw.z * raw.z) * (diag * diag);
    }
  }

  /** The normalised direction has length exactly 1 when a key is
      effectively held (one of a pair without its opposite), and 0 when
      none is. */
  lemma DirectionLength(f: MoveFlags, diag: real)
    requires IsDiagonalScale(diag)
    ensures f.forward != f.backward || f.left != f.right ==> SquaredSpeed(Normalize(RawDirection(f), diag)) == 1.0
    ensures f.forward == f.backward && f.left == f.right ==> SquaredSpeed(Normalize(RawDirection(f), diag)) == 0.0
  {
    var raw := RawDirection(f);
    if raw.x != 0.0 && raw.z != 0.0 {
      assert raw.x * raw.x == 1.0 && raw.z * raw.z == 1.0;
      assert (raw.x * diag) * (raw.x * diag) == (raw.x * raw.x) * (diag * diag);
      assert (raw.z * diag) * (raw.z * diag) == (raw.z * raw.z) * (diag * diag);
    }
  }

  lemma AxisWithinTerminal(v: real, d: real, delta: real)
    requires -1.0 <= d <= 1.0 && 0.0 <= delta <= 0.1
    requires -TERMINAL_SPEED <= v <= TERMINAL_SPEED
    ensures -TERMINAL_SPEED <= Damp(v, delta) - d * ACCELERATION * delta <= TERMINAL_SPEED
    ensures -TERMINAL_SPEED <= Damp(v, delta) <= TERMINAL_SPEED
  {
    var keep := 1.0 - 10.0 * delta;
    assert Damp(v, delta) == v * keep;
    MulNonNegative(v + 10.0, keep);
    MulNonNegative(10.0 - v, keep);
    var push := 100.0 * delta;
    assert d * ACCELERATION * delta == d * push;
    MulNonNegative(d + 1.0, push);
    MulNonNegative(1.0 - d, push);
  }

  lemma SquareNonNegative(a: real)
    ensures 0.0 <= a * a
  {
    if a < 0.0 {
      MulNonNegative(-a, -a);
    } else {
      MulNonNegative(a, a);
    }
  }

  lemma MulPositive(a: real, b: real)
    requires 0.0 < a && 0.0 < b
    ensures 0.0 < a * b
  {
  }

  lemma MulNonNegative(a: real, b: real)
    requires 0.0 <= a && 0.0 <= b
    ensures 0.0 <= a * b
  {
  }

  /** Damping alone never speeds an axis up for frame times up to 0.1 s, but
      the frame time is not clamped: from 0.2 s on it reverses the velocity,
      and beyond it amplifies it. */
  lemma DampingWithoutClamp(v: real)
    ensures 0.0 <= Damp(v, 0.05) * v <= v * v
    ensures Damp(v, 0.2) == -v
    ensures Damp(v, 0.3) == -2.0 * v
  {
  }

  /** A 0.15 s frame with forward held, taken while backing up at terminal
      speed, leaves the player moving forward at twice the terminal speed. */
  lemma LagSpikeExceedsTerminal(eyeY: real, diag: real)
    requires IsDiagonalScale(diag)
    ensures Frame(Planar(0.0, TERMINAL_SPEED), NO_KEYS.(forward := true), true, 0.15, eyeY, diag).velocity.z ==
            -2.0 * TERMINAL_SPEED
  {
  }
}

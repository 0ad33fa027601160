/**
 * The fly/orbit camera: a record of vectors, angles and dirty flags, and the
 * transitions the input handlers and the per-frame `update` apply to it.
 *
 * Recomputing the front and right vectors from yaw and pitch is trigonometry;
 * it is a parameter `basis` here. The cached view and perspective matrices are
 * represented by the arguments they were last built from.
 */
module CameraModel {
  import opened Vectors

  const MoveSpeed: real := 2.5
  const Sensitivity: real := 0.1
  const DefaultZoom: real := 45.0
  const DefaultYaw: real := -90.0
  const DefaultPitch: real := 0.0

  /** The nearest and farthest visible distances given to the perspective projection. */
  const Near: real := 0.1
  const Far: real := 100.0

  /** The pitch limit in degrees, either way. */
  const PitchLimit: real := 89.0
  const MinZoom: real := 1.0
  const MaxZoom: real := 45.0

  /** Arguments of a `lookAt` view matrix. */
  datatype LookAt = LookAt(eye: Vec3, center: Vec3, up: Vec3)

  /**
   * Arguments of a `perspective` projection: the field of view in degrees
   * (the program converts it to radians), the window size whose ratio is the
   * aspect, and the clip distances.
   */
  datatype Perspective = Perspective(fovDegrees: real, winX: real, winY: real, near: real, far: real)

  /** A cached matrix: never built yet, or built from these arguments. */
  datatype Cached<T> = Unset | Built(args: T)

  /** Front and right vectors as recomputed from yaw, pitch and up. */
  datatype Basis = Basis(front: Vec3, right: Vec3)

  datatype Camera = Camera(
    front: Vec3,
    position: Vec3,
    up: Vec3,
    right: Vec3,
    focused: bool,
    targeting: bool,
    target: Vec3,
    hover: Vec3,
    targetLerp: real,
    view: Cached<LookAt>,
    perspective: Cached<Perspective>,
    yaw: real,
    pitch: real,
    zoom: real,
    moveSpeed: real,
    mouseSensitivity: real,
    callView: bool,
    callPerspective: bool)

  /**
   * A new camera. `basis(yaw, pitch, up)` stands for the trigonometric
   * recomputation of front and right. The program leaves the target, the hover
   * point and the interpolation weight uninitialised, so their initial values
   * are parameters here.
   */
  function NewCamera(pos: Vec3, worldUp: Vec3, yaw: real, pitch: real,
                     basis: (real, real, Vec3) -> Basis,
                     targetLerp: real, hover: Vec3, target: Vec3): (c: Camera)
    ensures c.position == pos && c.up == worldUp && c.yaw == yaw && c.pitch == pitch
    ensures c.front == basis(yaw, pitch, worldUp).front && c.right == basis(yaw, pitch, worldUp).right
    ensures c.focused && !c.targeting
    ensures c.zoom == 45.0 && c.moveSpeed == 2.5 && c.mouseSensitivity == 0.1
    ensures c.callView && c.callPerspective
    ensures c.view == Unset && c.perspective == Unset
    ensures c.targetLerp == targetLerp && c.hover == hover && c.target == target
  {
    var b := basis(yaw, pitch, worldUp);
    Camera(b.front, pos, worldUp, b.right, true, false, target, hover, targetLerp,
           Unset, Unset, yaw, pitch, DefaultZoom, MoveSpeed, Sensitivity, true, true)
  }

  /** The camera built with every default argument: at (0, 0, 3), y up, looking along yaw -90. */
  function DefaultCamera(basis: (real, real, Vec3) -> Basis, targetLerp: real, hover: Vec3, target: Vec3): (c: Camera)
    ensures c.position == Vec3(0.0, 0.0, 3.0) && c.up == Vec3(0.0, 1.0, 0.0)
    ensures c.yaw == -90.0 && c.pitch == 0.0
    ensures c.focused && !c.targeting && c.callView && c.callPerspective
  {
    NewCamera(Vec3(0.0, 0.0, 3.0), Vec3(0.0, 1.0, 0.0), DefaultYaw, DefaultPitch, basis, targetLerp, hover, target)
  }

  // ---------------------------------------------------------------------
  // Keyboard
  // ---------------------------------------------------------------------

  /** `w` with its vertical component removed. */
  function Flat(w: Vec3): Vec3 {
    Vec3(w.x, 0.0, w.z)
  }

  /** Dropping the vertical part of a sum of scaled vectors drops it from each term. */
  lemma FlatSum(a: Vec3, s: real, b: Vec3, t: real, v: real)
    ensures Flat(Add(Add(Zero, Scale(Scale(a, s), v)), Scale(Scale(b, t), v)))
         == Add(Scale(Scale(Flat(a), s), v), Scale(Scale(Flat(b), t), v))
  {
  }

  /**
   * Speed `v` times the input along each of front and right with its
   * vertical part removed, and along up as it is.
   */
  function KeyboardForm(front: Vec3, right: Vec3, up: Vec3, dir: Vec3, v: real): Vec3 {
    Add(Add(Scale(Scale(Flat(front), dir.x), v), Scale(Scale(Flat(right), dir.z), v)), Scale(Scale(up, dir.y), v))
  }

  /** No input, or no speed, gives no displacement. */
  lemma KeyboardFormZero(front: Vec3, right: Vec3, up: Vec3, dir: Vec3, v: real)
    ensures dir == Zero || v == 0.0 ==> KeyboardForm(front, right, up, dir, v) == Zero
  {
    if dir == Zero {
      calc {
        KeyboardForm(front, right, up, dir, v);
        Add(Add(Scale(Scale(Flat(front), 0.0), v), Scale(Scale(Flat(right), 0.0), v)), Scale(Scale(up, 0.0), v));
        { ScaleZero(Flat(front)); ScaleZero(Flat(right)); ScaleZero(up); }
        Add(Add(Scale(Zero, v), Scale(Zero, v)), Scale(Zero, v));
      }
    } else if v == 0.0 {
      calc {
        KeyboardForm(front, right, up, dir, v);
        Add(Add(Scale(Scale(Flat(front), dir.x), 0.0), Scale(Scale(Flat(right), dir.z), 0.0)), Scale(Scale(up, dir.y), 0.0));
        { ScaleZero(Scale(Flat(front), dir.x)); ScaleZero(Scale(Flat(right), dir.z)); ScaleZero(Scale(up, dir.y)); }
        Add(Add(Zero, Zero), Zero);
      }
    }
  }

  /**
   * The keyboard displacement. Forward and sideways input move along front
   * and right with the vertical part removed; vertical input moves along up.
   */
  function KeyboardDelta(c: Camera, dir: Vec3, dt: real): (d: Vec3)
    ensures d == KeyboardForm(c.front, c.right, c.up, dir, c.moveSpeed * dt)
    ensures d.y == c.up.y * dir.y * (c.moveSpeed * dt)
    ensures dir.y == 0.0 ==> d.y == 0.0
    ensures dir == Zero || dt == 0.0 ==> d == Zero
  {
    var velocity := c.moveSpeed * dt;
    FlatSum(c.front, dir.x, c.right, dir.z, velocity);
    KeyboardFormZero(c.front, c.right, c.up, dir, velocity);
    assert dt == 0.0 ==> velocity == 0.0;
    // front and right without their vertical part, then up
    Add(Flat(Add(Add(Zero, Scale(Scale(c.front, dir.x), velocity)), Scale(Scale(c.right, dir.z), velocity))),
        Scale(Scale(c.up, dir.y), velocity))
  }

  /**
   * Keyboard movement. Each component of `dir` lies in [-1, 1]. While
   * targeting only the hover point moves; otherwise the camera moves and the
   * hover point follows it. Any movement asks for a new view.
   */
  function ProcessKeyboard(c: Camera, dir: Vec3, dt: real): (r: Camera)
    requires -1.0 <= dir.x <= 1.0 && -1.0 <= dir.y <= 1.0 && -1.0 <= dir.z <= 1.0
    ensures !NonZero(KeyboardDelta(c, dir, dt)) ==> r == c
    ensures NonZero(KeyboardDelta(c, dir, dt)) ==> r.callView
    ensures NonZero(KeyboardDelta(c, dir, dt)) && c.targeting ==>
              r.position == c.position && r.hover == Add(c.hover, KeyboardDelta(c, dir, dt))
    ensures NonZero(KeyboardDelta(c, dir, dt)) && !c.targeting ==>
              r.position == Add(c.position, KeyboardDelta(c, dir, dt)) && r.hover == r.position
    ensures r.(position := c.position, hover := c.hover, callView := c.callView) == c
  {
    var delta := KeyboardDelta(c, dir, dt);
    if NonZero(delta) then
      if c.targeting then
        c.(hover := Add(c.hover, delta), callView := true)
      else
        var p := Add(c.position, delta);
        c.(position := p, hover := p, callView := true)
    else
      c
  }

  /** Moving out of a targeting camera leaves it where it was. */
  lemma KeyboardWhileTargetingKeepsPosition(c: Camera, dir: Vec3, dt: real)
    requires -1.0 <= dir.x <= 1.0 && -1.0 <= dir.y <= 1.0 && -1.0 <= dir.z <= 1.0
    requires c.targeting
    ensures ProcessKeyboard(c, dir, dt).position == c.position
    ensures ProcessKeyboard(c, dir, dt).targeting
  {
  }

  // ---------------------------------------------------------------------
  // Mouse
  // ---------------------------------------------------------------------

  /** Pitch limited to [-89, 89]: the upper bound is applied first, then the lower. */
  function ClampPitch(p: real): (r: real)
    ensures -89.0 <= r <= 89.0
    ensures -89.0 <= p <= 89.0 ==> r == p
    ensures p > 89.0 ==> r == 89.0
    ensures p < -89.0 ==> r == -89.0
  {
    var p := if p > PitchLimit then PitchLimit else p;
    if p < -PitchLimit then -PitchLimit else p
  }

  /**
   * Mouse look. A non-zero offset always asks for a new view; it turns the
   * camera only when it is focused and not targeting, by the offset times the
   * sensitivity, with the pitch limited when `limitPitch` is set.
   */
  function ProcessMouseMove(c: Camera, xOff: real, yOff: real, limitPitch: bool,
                            basis: (real, real, Vec3) -> Basis): (r: Camera)
    ensures xOff == 0.0 && yOff == 0.0 ==> r == c
    ensures (xOff != 0.0 || yOff != 0.0) ==> r.callView
    ensures (xOff != 0.0 || yOff != 0.0) && (c.targeting || !c.focused) ==> r == c.(callView := true)
    ensures (xOff != 0.0 || yOff != 0.0) && !c.targeting && c.focused ==>
              && r.yaw == c.yaw + xOff * c.mouseSensitivity
              && (limitPitch ==> r.pitch == ClampPitch(c.pitch + yOff * c.mouseSensitivity) && -89.0 <= r.pitch <= 89.0)
              && (!limitPitch ==> r.pitch == c.pitch + yOff * c.mouseSensitivity)
              && r.front == basis(r.yaw, r.pitch, c.up).front
              && r.right == basis(r.yaw, r.pitch, c.up).right
    ensures r.(yaw := c.yaw, pitch := c.pitch, front := c.front, right := c.right, callView := c.callView) == c
  {
    if xOff != 0.0 || yOff != 0.0 then
      if !c.targeting && c.focused then
        var yaw := c.yaw + xOff * c.mouseSensitivity;
        var pitch := c.pitch + yOff * c.mouseSensitivity;
        var pitch := if limitPitch then ClampPitch(pitch) else pitch;
        var b := basis(yaw, pitch, c.up);
        c.(yaw := yaw, pitch := pitch, front := b.front, right := b.right, callView := true)
      else
        c.(callView := true)
    else
      c
  }

  /** Once the pitch is within the limit, limited mouse look keeps it there. */
  lemma MouseMoveKeepsPitchLimit(c: Camera, xOff: real, yOff: real, basis: (real, real, Vec3) -> Basis)
    requires -89.0 <= c.pitch <= 89.0
    ensures -89.0 <= ProcessMouseMove(c, xOff, yOff, true, basis).pitch <= 89.0
  {
  }

  /** Zoom limited to [1, 45]: the lower bound is applied first, then the upper. */
  function ClampZoom(z: real): (r: real)
    ensures 1.0 <= r <= 45.0
    ensures 1.0 <= z <= 45.0 ==> r == z
    ensures z < 1.0 ==> r == 1.0
    ensures z > 45.0 ==> r == 45.0
  {
    var z := if z < MinZoom then MinZoom else z;
    if z > MaxZoom then MaxZoom else z
  }

  /** Scrolling narrows or widens the field of view within [1, 45] and asks for a new projection. */
  function ProcessMouseScroll(c: Camera, yOff: real): (r: Camera)
    ensures yOff == 0.0 ==> r == c
    ensures yOff != 0.0 ==> r.zoom == ClampZoom(c.zoom - yOff) && r.callPerspective
    ensures yOff != 0.0 ==> 1.0 <= r.zoom <= 45.0
    ensures r.(zoom := c.zoom, callPerspective := c.callPerspective) == c
  {
    if yOff != 0.0 then
      c.(zoom := ClampZoom(c.zoom - yOff), callPerspective := true)
    else
      c
  }

  /** Scrolling in and then out by the same amount restores the zoom, away from the limits. */
  lemma ScrollInverse(c: Camera, yOff: real)
    requires 1.0 <= c.zoom - yOff <= 45.0
    requires 1.0 <= c.zoom <= 45.0
    ensures ProcessMouseScroll(ProcessMouseScroll(c, yOff), -yOff).zoom == c.zoom
  {
  }

  // ---------------------------------------------------------------------
  // Targets and focus
  // ---------------------------------------------------------------------

  /** Replaces the front vector and asks for a new view. */
  function SetFront(c: Camera, f: Vec3): (r: Camera)
    ensures r.front == f && r.callView
    ensures r.(front := c.front, callView := c.callView) == c
  {
    c.(front := f, callView := true)
  }

  /** Starts looking at `t`: the zoom returns to 45 and both matrices are to be rebuilt. */
  function SetTarget(c: Camera, t: Vec3): (r: Camera)
    ensures r.targeting && r.target == t && r.zoom == 45.0
    ensures r.callView && r.callPerspective
    ensures r.(targeting := c.targeting, target := c.target, zoom := c.zoom,
               callView := c.callView, callPerspective := c.callPerspective) == c
  {
    c.(targeting := true, target := t, zoom := DefaultZoom, callView := true, callPerspective := true)
  }

  /** Stops targeting; the target point itself is kept. */
  function DropTarget(c: Camera): (r: Camera)
    ensures !r.targeting && r.callView && r.target == c.target
    ensures r.(targeting := c.targeting, callView := c.callView) == c
  {
    c.(targeting := false, callView := true)
  }

  function ToggleFocus(c: Camera): (r: Camera)
    ensures r.focused == !c.focused
    ensures r.(focused := c.focused) == c
  {
    c.(focused := !c.focused)
  }

  lemma ToggleFocusInvolution(c: Camera)
    ensures ToggleFocus(ToggleFocus(c)) == c
  {
  }

  /** Targeting and dropping the target leaves the camera as it was, apart from the zoom, the target and the dirty flags. */
  lemma SetThenDropTarget(c: Camera, t: Vec3)
    requires !c.targeting
    ensures DropTarget(SetTarget(c, t)).(zoom := c.zoom, target := c.target,
                                        callView := c.callView, callPerspective := c.callPerspective) == c
  {
  }

  // ---------------------------------------------------------------------
  // The per-frame update
  // ---------------------------------------------------------------------

  /**
   * The interpolation weight after one frame: it moves by `dt` towards 1 while
   * targeting and towards 0 otherwise, stopping at the bound. The flag says
   * whether the step left the weight strictly short of the bound, which asks
   * for a new view.
   */
  function NextLerp(targeting: bool, t: real, dt: real): (r: (real, bool))
    ensures targeting && t < 1.0 ==> r.0 == (if t + dt >= 1.0 then 1.0 else t + dt)
    ensures !targeting && t > 0.0 ==> r.0 == (if t - dt <= 0.0 then 0.0 else t - dt)
    ensures (targeting && t >= 1.0) || (!targeting && t <= 0.0) ==> r.0 == t
    ensures r.1 <==> (targeting && t < 1.0 && t + dt < 1.0) || (!targeting && t > 0.0 && t - dt > 0.0)
    ensures 0.0 <= t <= 1.0 && dt >= 0.0 ==> 0.0 <= r.0 <= 1.0
  {
    if targeting then
      if t < 1.0 then
        var t1 := t + 1.0 * dt;
        if t1 >= 1.0 then (1.0, false) else (t1, true)
      else (t, false)
    else
      if t > 0.0 then
        var t1 := t - 1.0 * dt;
        if t1 <= 0.0 then (0.0, false) else (t1, true)
      else (t, false)
  }

  /** The condition under which `update` rebuilds the view, as the program writes it. */
  predicate ViewGuard(callView: bool, t: real) {
    callView || t > 0.0 || t < 1.0
  }

  /** Every real number is above 0 or below 1, so the guard never fails. */
  lemma ViewGuardAlwaysHolds(callView: bool, t: real)
    ensures ViewGuard(callView, t)
  {
  }

  /** The view arguments for the current state: eye and centre slide from the free camera to the orbit. */
  function ViewOf(c: Camera): (v: LookAt)
    ensures c.targetLerp == 0.0 ==> v.eye == c.position && v.center == Add(c.position, c.front)
    ensures c.targetLerp == 1.0 ==> v.eye == c.hover && v.center == c.target
    ensures v.up == c.up
  {
    LookAt(Lerp3(c.position, c.targetLerp, c.hover), Lerp3(Add(c.position, c.front), c.targetLerp, c.target), c.up)
  }

  /**
   * One frame: step the interpolation weight, rebuild the view (the guard
   * always holds), and rebuild the projection if it was asked for.
   */
  function Update(c: Camera, winX: real, winY: real, dt: real): (r: Camera)
    ensures r.targetLerp == NextLerp(c.targeting, c.targetLerp, dt).0
    ensures r.view == Built(ViewOf(r))
    ensures !r.callView && !r.callPerspective
    ensures c.callPerspective ==> r.perspective == Built(Perspective(c.zoom, winX, winY, 0.1, 100.0))
    ensures !c.callPerspective ==> r.perspective == c.perspective
    ensures r.(targetLerp := c.targetLerp, view := c.view, perspective := c.perspective,
               callView := c.callView, callPerspective := c.callPerspective) == c
  {
    var (t, request) := NextLerp(c.targeting, c.targetLerp, dt);
    var c1 := c.(targetLerp := t, callView := c.callView || request);
    var c2 := if ViewGuard(c1.callView, c1.targetLerp) then c1.(view := Built(ViewOf(c1)), callView := false) else c1;
    if c2.callPerspective then
      c2.(perspective := Built(Perspective(c2.zoom, winX, winY, Near, Far)), callPerspective := false)
    else
      c2
  }

  /** With a non-negative frame time the interpolation weight stays in [0, 1]. */
  lemma UpdateKeepsLerpInRange(c: Camera, winX: real, winY: real, dt: real)
    requires 0.0 <= c.targetLerp <= 1.0 && dt >= 0.0
    ensures 0.0 <= Update(c, winX, winY, dt).targetLerp <= 1.0
  {
  }

  /** `k` frames of the same size in the same window. */
  function UpdateTimes(c: Camera, winX: real, winY: real, dt: real, k: nat): (r: Camera)
    ensures r.targeting == c.targeting
    decreases k
  {
    if k == 0 then c else UpdateTimes(Update(c, winX, winY, dt), winX, winY, dt, k - 1)
  }

  function Min(a: real, b: real): real {
    if a <= b then a else b
  }

  function Max(a: real, b: real): real {
    if a >= b then a else b
  }

  /** `k` frames last one frame longer than `k - 1`, and no frame count takes negative time. */
  lemma FramesSplit(k: nat, dt: real)
    requires k > 0 && dt >= 0.0
    ensures (k as real) * dt == ((k - 1) as real) * dt + dt
    ensures ((k - 1) as real) * dt >= 0.0
  {
  }

  lemma MinAbsorbs(a: real, d: real, e: real, total: real)
    requires e >= 0.0 && total == d + e
    ensures Min(1.0, Min(1.0, a + d) + e) == Min(1.0, a + total)
  {
  }

  lemma MaxAbsorbs(a: real, d: real, e: real, total: real)
    requires e >= 0.0 && total == d + e
    ensures Max(0.0, Max(0.0, a - d) - e) == Max(0.0, a - total)
  {
  }

  /** The interpolation weight after `k` frames, on its own. */
  function LerpTimes(targeting: bool, t: real, dt: real, k: nat): real
    decreases k
  {
    if k == 0 then t else LerpTimes(targeting, NextLerp(targeting, t, dt).0, dt, k - 1)
  }

  /** `k` frames of the camera move its weight as `k` steps of the weight alone. */
  lemma {:induction false} UpdateTimesLerp(c: Camera, winX: real, winY: real, dt: real, k: nat)
    ensures UpdateTimes(c, winX, winY, dt, k).targetLerp == LerpTimes(c.targeting, c.targetLerp, dt, k)
    decreases k
  {
    if k > 0 {
      var c1 := Update(c, winX, winY, dt);
      assert c1.targeting == c.targeting;
      UpdateTimesLerp(c1, winX, winY, dt, k - 1);
    }
  }

  /** While targeting, `k` steps raise the weight by `k * dt`, up to 1. */
  lemma {:induction false} TargetingLerpTimes(t: real, dt: real, k: nat)
    requires 0.0 <= t <= 1.0 && dt >= 0.0
    ensures LerpTimes(true, t, dt, k) == Min(1.0, t + (k as real) * dt)
    decreases k
  {
    if k == 0 {
      assert (k as real) * dt == 0.0;
    } else {
      var t1 := NextLerp(true, t, dt).0;
      var e := ((k - 1) as real) * dt;
      assert t1 == Min(1.0, t + dt);
      assert LerpTimes(true, t, dt, k) == LerpTimes(true, t1, dt, k - 1);
      TargetingLerpTimes(t1, dt, k - 1);
      FramesSplit(k, dt);
      MinAbsorbs(t, dt, e, (k as real) * dt);
    }
  }

  /** Without a target, `k` steps lower the weight by `k * dt`, down to 0. */
  lemma {:induction false} FreeLerpTimes(t: real, dt: real, k: nat)
    requires 0.0 <= t <= 1.0 && dt >= 0.0
    ensures LerpTimes(false, t, dt, k) == Max(0.0, t - (k as real) * dt)
    decreases k
  {
    if k == 0 {
      assert (k as real) * dt == 0.0;
    } else {
      var t1 := NextLerp(false, t, dt).0;
      var e := ((k - 1) as real) * dt;
      assert t1 == Max(0.0, t - dt);
      assert LerpTimes(false, t, dt, k) == LerpTimes(false, t1, dt, k - 1);
      FreeLerpTimes(t1, dt, k - 1);
      FramesSplit(k, dt);
      MaxAbsorbs(t, dt, e, (k as real) * dt);
    }
  }

  /** While targeting, `k` frames raise the weight by `k * dt`, up to 1. */
  lemma TargetingLerpAfter(c: Camera, winX: real, winY: real, dt: real, k: nat)
    requires c.targeting && 0.0 <= c.targetLerp <= 1.0 && dt >= 0.0
    ensures UpdateTimes(c, winX, winY, dt, k).targetLerp == Min(1.0, c.targetLerp + (k as real) * dt)
  {
    UpdateTimesLerp(c, winX, winY, dt, k);
    TargetingLerpTimes(c.targetLerp, dt, k);
  }

  /** Without a target, `k` frames lower the weight by `k * dt`, down to 0. */
  lemma FreeLerpAfter(c: Camera, winX: real, winY: real, dt: real, k: nat)
    requires !c.targeting && 0.0 <= c.targetLerp <= 1.0 && dt >= 0.0
    ensures UpdateTimes(c, winX, winY, dt, k).targetLerp == Max(0.0, c.targetLerp - (k as real) * dt)
  {
    UpdateTimesLerp(c, winX, winY, dt, k);
    FreeLerpTimes(c.targetLerp, dt, k);
  }

  /** Enough frames while targeting complete the move into the orbit view. */
  lemma TargetingSettles(c: Camera, winX: real, winY: real, dt: real, k: nat)
    requires c.targeting && 0.0 <= c.targetLerp <= 1.0 && dt >= 0.0
    requires k >= 1 && (k as real) * dt >= 1.0 - c.targetLerp
    ensures UpdateTimes(c, winX, winY, dt, k).targetLerp == 1.0
    ensures var r := UpdateTimes(c, winX, winY, dt, k);
            r.view == Built(LookAt(r.hover, r.target, r.up))
  {
    TargetingLerpAfter(c, winX, winY, dt, k);
    UpdateTimesView(c, winX, winY, dt, k);
  }

  /** After at least one frame the cached view always matches the camera's state. */
  lemma {:induction false} UpdateTimesView(c: Camera, winX: real, winY: real, dt: real, k: nat)
    requires k >= 1
    ensures UpdateTimes(c, winX, winY, dt, k).view == Built(ViewOf(UpdateTimes(c, winX, winY, dt, k)))
    decreases k
  {
    if k > 1 {
      UpdateTimesView(Update(c, winX, winY, dt), winX, winY, dt, k - 1);
    }
  }
}

/**
 * The scene-graph node (`Object3D`): its fields, value mutators, the per-frame
 * motion integrator `tick`, and the pre-order render traversal.
 *
 * Matrices built from trigonometry (`buildModelMatrix`) are not modelled: the
 * render traversal is generic over a matrix type `M`, a product `mul` and a
 * function `local` from the fields `buildModelMatrix` reads to `M`.
 */
module SceneNode {
  import opened Vectors

  /** A mesh batch owned by a node; its geometry and textures are not modelled. */
  datatype Mesh = Mesh(handle: nat)

  /** A 4x4 matrix given by its entries; the model only stores it, never multiplies it. */
  datatype Mat4 = Mat4(entries: seq<real>)

  const IdentityMat4: Mat4 := Mat4([1.0, 0.0, 0.0, 0.0,
                                    0.0, 1.0, 0.0, 0.0,
                                    0.0, 0.0, 1.0, 0.0,
                                    0.0, 0.0, 0.0, 1.0])

  // The integrator's fixed constants.
  const Friction: real := 1.25
  const Weight: real := 4.0
  const Gravity: real := 9.81
  const Deceleration: real := 2.0
  const Rubber: real := 0.5

  /** The kinematic state `tick` advances: position, orientation and their rates. */
  datatype Motion = Motion(
    position: Vec3,
    orientation: Vec3,
    velocity: Vec3,
    acceleration: Vec3,
    rotVelocity: Vec3,
    rotAcceleration: Vec3)

  datatype Node = Node(
    meshes: seq<Mesh>,
    children: seq<Node>,
    motion: Motion,
    scale: Vec3,
    center: Vec3,
    forward: Vec3,
    shininess: real,
    baseTransform: Mat4,
    display: bool,
    gravityAffected: bool,
    name: string)

  /* ---------------------------------------------------------------------- */
  /* Tree shape                                                             */
  /* ---------------------------------------------------------------------- */

  /** The nodes of a subtree, each once, in pre-order. */
  function PreOrder(n: Node): (r: seq<Node>)
    ensures |r| >= 1 && r[0] == n
    decreases n
  {
    [n] + Forest(n.children)
  }

  /** The pre-order listings of a child list, concatenated. */
  function Forest(cs: seq<Node>): seq<Node>
    decreases cs
  {
    if cs == [] then [] else PreOrder(cs[0]) + Forest(cs[1..])
  }

  lemma {:induction false} ForestAppend(cs: seq<Node>, c: Node)
    ensures Forest(cs + [c]) == Forest(cs) + PreOrder(c)
    decreases cs
  {
    if cs == [] {
      assert cs + [c] == [c];
      assert Forest([c]) == PreOrder(c) + Forest([]);
    } else {
      assert (cs + [c])[0] == cs[0];
      assert (cs + [c])[1..] == cs[1..] + [c];
      ForestAppend(cs[1..], c);
    }
  }

  /* ---------------------------------------------------------------------- */
  /* Construction and value mutators                                        */
  /* ---------------------------------------------------------------------- */

  /** The two-argument constructor: every vector zero except a unit scale. */
  function NewNodeWithBase(meshes: seq<Mesh>, baseTransform: Mat4): (r: Node)
    ensures r.meshes == meshes && r.children == [] && r.baseTransform == baseTransform
    ensures r.motion.position == Zero && r.motion.orientation == Zero
    ensures r.center == Zero && r.forward == Zero
    ensures r.motion.velocity == Zero && r.motion.acceleration == Zero
    ensures r.motion.rotVelocity == Zero && r.motion.rotAcceleration == Zero
    ensures r.scale == Splat(1.0) && r.shininess == 4.0
    ensures r.display && r.gravityAffected && r.name == ""
  {
    Node(meshes, [], Motion(Zero, Zero, Zero, Zero, Zero, Zero), Splat(1.0), Zero, Zero,
         4.0, baseTransform, true, true, "")
  }

  /** The one-argument constructor delegates with the identity base transform. */
  function NewNode(meshes: seq<Mesh>): (r: Node)
    ensures r.baseTransform == IdentityMat4
    ensures r == NewNodeWithBase(meshes, IdentityMat4)
  {
    NewNodeWithBase(meshes, IdentityMat4)
  }

  function SetPosition(n: Node, p: Vec3): (r: Node)
    ensures r.motion.position == p
    ensures r.motion.(position := n.motion.position) == n.motion
    ensures r.(motion := n.motion) == n
  {
    n.(motion := n.motion.(position := p))
  }

  function Move(n: Node, offset: Vec3): (r: Node)
    ensures r.motion.position.x == n.motion.position.x + offset.x
    ensures r.motion.position.y == n.motion.position.y + offset.y
    ensures r.motion.position.z == n.motion.position.z + offset.z
    ensures r.motion.(position := n.motion.position) == n.motion
    ensures r.(motion := n.motion) == n
  {
    n.(motion := n.motion.(position := Add(n.motion.position, offset)))
  }

  function Rotate(n: Node, rotation: Vec3): (r: Node)
    ensures r.motion.orientation.x == n.motion.orientation.x + rotation.x
    ensures r.motion.orientation.y == n.motion.orientation.y + rotation.y
    ensures r.motion.orientation.z == n.motion.orientation.z + rotation.z
    ensures r.motion.(orientation := n.motion.orientation) == n.motion
    ensures r.(motion := n.motion) == n
  {
    n.(motion := n.motion.(orientation := Add(n.motion.orientation, rotation)))
  }

  function Grow(n: Node, growth: Vec3): (r: Node)
    ensures r.scale.x == n.scale.x * growth.x
    ensures r.scale.y == n.scale.y * growth.y
    ensures r.scale.z == n.scale.z * growth.z
    ensures r.(scale := n.scale) == n
  {
    n.(scale := Mul(n.scale, growth))
  }

  function AddChild(n: Node, child: Node): (r: Node)
    ensures |r.children| == |n.children| + 1
    ensures r.children[..|n.children|] == n.children
    ensures r.children[|n.children|] == child
    ensures r.(children := n.children) == n
  {
    n.(children := n.children + [child])
  }

  function ToggleGravity(n: Node): (r: Node)
    ensures r.gravityAffected == !n.gravityAffected
    ensures r.(gravityAffected := n.gravityAffected) == n
  {
    n.(gravityAffected := !n.gravityAffected)
  }

  /** Moving by an offset and then by its negation restores the node. */
  lemma MoveInverse(n: Node, offset: Vec3)
    ensures Move(Move(n, offset), Neg(offset)) == n
  {
  }

  /** Two moves are one move by the sum of the offsets. */
  lemma MoveCompose(n: Node, a: Vec3, b: Vec3)
    ensures Move(Move(n, a), b) == Move(n, Add(a, b))
  {
  }

  /** Two rotations are one rotation by the sum of the deltas. */
  lemma RotateCompose(n: Node, a: Vec3, b: Vec3)
    ensures Rotate(Rotate(n, a), b) == Rotate(n, Add(a, b))
  {
  }

  /** Growing by a factor and then by its reciprocal restores the scale. */
  lemma GrowInverse(n: Node, g: Vec3)
    requires g.x != 0.0 && g.y != 0.0 && g.z != 0.0
    ensures Grow(Grow(n, g), Vec3(1.0 / g.x, 1.0 / g.y, 1.0 / g.z)) == n
  {
    var s := n.scale;
    assert s.x * g.x * (1.0 / g.x) == s.x;
    assert s.y * g.y * (1.0 / g.y) == s.y;
    assert s.z * g.z * (1.0 / g.z) == s.z;
  }

  lemma ToggleGravityInvolution(n: Node)
    ensures ToggleGravity(ToggleGravity(n)) == n
  {
  }

  /** Adding a child grows the subtree by exactly the child's subtree, appended last. */
  lemma {:induction false} AddChildPreOrder(n: Node, child: Node)
    ensures PreOrder(AddChild(n, child))[1..] == PreOrder(n)[1..] + PreOrder(child)
    ensures |PreOrder(AddChild(n, child))| == |PreOrder(n)| + |PreOrder(child)|
  {
    ForestAppend(n.children, child);
    var r := AddChild(n, child);
    assert PreOrder(r) == [r] + (Forest(n.children) + PreOrder(child));
    assert PreOrder(n) == [n] + Forest(n.children);
    assert PreOrder(r)[1..] == Forest(n.children) + PreOrder(child);
  }

  /* ---------------------------------------------------------------------- */
  /* The integrator                                                         */
  /* ---------------------------------------------------------------------- */

  /** The sign of a float as `signOf` computes it: one of -1, 0, 1. */
  function SignOf(x: real): (r: real)
    ensures r == 1.0 || r == 0.0 || r == -1.0
    ensures r > 0.0 <==> x > 0.0
    ensures r < 0.0 <==> x < 0.0
  {
    if x > 0.0 then 1.0 else if x < 0.0 then -1.0 else 0.0
  }

  /**
   * Semi-implicit Euler: position moves by the velocity held BEFORE this
   * tick's acceleration is added; orientation likewise.
   */
  function Integrate(m: Motion, dt: real): (r: Motion)
    ensures r.position == Advance(m.position, m.velocity, dt)
    ensures r.velocity == Advance(m.velocity, m.acceleration, dt)
    ensures r.orientation == Advance(m.orientation, m.rotVelocity, dt)
    ensures r.rotVelocity == Advance(m.rotVelocity, m.rotAcceleration, dt)
    ensures r.acceleration == m.acceleration && r.rotAcceleration == m.rotAcceleration
  {
    // every right-hand side reads the state from before the tick
    m.(position := Add(m.position, Scale(m.velocity, dt)),
       velocity := Add(m.velocity, Scale(m.acceleration, dt)),
       orientation := Add(m.orientation, Scale(m.rotVelocity, dt)),
       rotVelocity := Add(m.rotVelocity, Scale(m.rotAcceleration, dt)))
  }

  /** Gravity acts on a gravity-affected node above ground that is not thrust upward. */
  predicate GravityApplies(m: Motion, gravityAffected: bool) {
    gravityAffected && m.position.y > 0.0 && m.acceleration.y <= 0.0
  }

  function ApplyGravity(m: Motion, gravityAffected: bool, dt: real): (r: Motion)
    ensures GravityApplies(m, gravityAffected) ==> r.velocity.y == m.velocity.y - 13.81 * dt
    ensures !GravityApplies(m, gravityAffected) ==> r == m
    ensures r.velocity.x == m.velocity.x && r.velocity.z == m.velocity.z
    ensures r.position == m.position && r.orientation == m.orientation && r.rotVelocity == m.rotVelocity
    ensures r.acceleration == m.acceleration && r.rotAcceleration == m.rotAcceleration
  {
    if gravityAffected && m.position.y > 0.0 && m.acceleration.y <= 0.0 then
      m.(velocity := m.velocity.(y := m.velocity.y + -(Weight + Gravity) * dt))
    else
      m
  }

  /** Collision with the ground plane y = 0, keeping half the vertical speed. */
  function ClampToGround(m: Motion): (r: Motion)
    ensures r.position.y >= 0.0
    ensures m.position.y >= 0.0 ==> r == m
    ensures m.position.y < 0.0 ==> r.position.y == 0.0 && r.velocity.y == -0.5 * m.velocity.y
    ensures r.position.x == m.position.x && r.position.z == m.position.z
    ensures r.velocity.x == m.velocity.x && r.velocity.z == m.velocity.z
    ensures r.orientation == m.orientation && r.rotVelocity == m.rotVelocity
    ensures r.acceleration == m.acceleration && r.rotAcceleration == m.rotAcceleration
  {
    if m.position.y < 0.0 then
      m.(position := m.position.(y := 0.0), velocity := m.velocity.(y := -(m.velocity.y * Rubber)))
    else
      m
  }

  /**
   * Passive deceleration of one axis: only when that axis has no
   * acceleration and is moving; not clamped at zero.
   */
  function DecayAxis(v: real, a: real, dt: real): (r: real)
    ensures a != 0.0 ==> r == v
    ensures a == 0.0 ==> r == v - 2.5 * dt * SignOf(v)
    ensures v == 0.0 ==> r == 0.0
  {
    if a == 0.0 && v != 0.0 then v - Deceleration * Friction * dt * SignOf(v) else v
  }

  /** Deceleration of all three axes independently. */
  function Decelerate(m: Motion, dt: real): (r: Motion)
    ensures r.velocity.x == DecayAxis(m.velocity.x, m.acceleration.x, dt)
    ensures r.velocity.y == DecayAxis(m.velocity.y, m.acceleration.y, dt)
    ensures r.velocity.z == DecayAxis(m.velocity.z, m.acceleration.z, dt)
    ensures r.position == m.position && r.orientation == m.orientation && r.rotVelocity == m.rotVelocity
    ensures r.acceleration == m.acceleration && r.rotAcceleration == m.rotAcceleration
  {
    m.(velocity := Vec3(DecayAxis(m.velocity.x, m.acceleration.x, dt),
                        DecayAxis(m.velocity.y, m.acceleration.y, dt),
                        DecayAxis(m.velocity.z, m.acceleration.z, dt)))
  }

  /**
   * One node's own step of `tick`: integrate, gravity, ground clamp,
   * deceleration, in that order.
   */
  function Step(m: Motion, gravityAffected: bool, dt: real): (r: Motion)
    ensures r.position.x == Advance(m.position, m.velocity, dt).x
    ensures r.position.z == Advance(m.position, m.velocity, dt).z
    ensures r.position.y >= 0.0
    ensures Advance(m.position, m.velocity, dt).y >= 0.0 ==> r.position.y == Advance(m.position, m.velocity, dt).y
    ensures Advance(m.position, m.velocity, dt).y < 0.0 ==> r.position.y == 0.0
    ensures r.orientation == Advance(m.orientation, m.rotVelocity, dt)
    ensures r.rotVelocity == Advance(m.rotVelocity, m.rotAcceleration, dt)
    ensures r.acceleration == m.acceleration && r.rotAcceleration == m.rotAcceleration
  {
    var m1 := Integrate(m, dt);
    var m2 := ApplyGravity(m1, gravityAffected, dt);
    var m3 := ClampToGround(m2);
    Decelerate(m3, dt)
  }

  /**
   * The velocity after a step. Horizontal axes: integrated, then decelerated.
   * Vertical: gravity takes 13.81 * dt exactly when the node is
   * gravity-affected, its integrated height is above ground and it is not
   * thrust upward; a node that lands below ground has its gravity-free
   * velocity reflected at half speed; deceleration always comes last.
   */
  lemma StepVelocity(m: Motion, g: bool, dt: real)
    ensures var v1 := Advance(m.velocity, m.acceleration, dt);
            var a := m.acceleration;
            && Step(m, g, dt).velocity.x == DecayAxis(v1.x, a.x, dt)
            && Step(m, g, dt).velocity.z == DecayAxis(v1.z, a.z, dt)
    ensures var y1 := Advance(m.position, m.velocity, dt).y;
            var v1 := Advance(m.velocity, m.acceleration, dt).y;
            var ay := m.acceleration.y;
            && (y1 > 0.0 && g && ay <= 0.0 ==> Step(m, g, dt).velocity.y == DecayAxis(v1 - 13.81 * dt, ay, dt))
            && (y1 > 0.0 && !(g && ay <= 0.0) ==> Step(m, g, dt).velocity.y == DecayAxis(v1, ay, dt))
            && (y1 == 0.0 ==> Step(m, g, dt).velocity.y == DecayAxis(v1, ay, dt))
            && (y1 < 0.0 ==> Step(m, g, dt).velocity.y == DecayAxis(-0.5 * v1, ay, dt))
  {
    var m1 := Integrate(m, dt);
    var m2 := ApplyGravity(m1, g, dt);
    var m3 := ClampToGround(m2);
    assert Step(m, g, dt) == Decelerate(m3, dt);
    assert m3.acceleration == m.acceleration;
  }

  /** `tick`: the node's own step, then every child ticked with the same dt, in order. */
  function Tick(n: Node, dt: real): (r: Node)
    ensures r.motion == Step(n.motion, n.gravityAffected, dt)
    ensures |r.children| == |n.children|
    ensures r.(motion := n.motion, children := n.children) == n
    decreases n
  {
    n.(motion := Step(n.motion, n.gravityAffected, dt), children := TickForest(n.children, dt))
  }

  function TickForest(cs: seq<Node>, dt: real): (r: seq<Node>)
    ensures |r| == |cs|
    ensures forall i :: 0 <= i < |cs| ==> r[i] == Tick(cs[i], dt)
    decreases cs
  {
    if cs == [] then [] else [Tick(cs[0], dt)] + TickForest(cs[1..], dt)
  }

  /** `k` successive frames with the same dt. */
  function TickTimes(n: Node, k: nat, dt: real): Node
    decreases k
  {
    if k == 0 then n else TickTimes(Tick(n, dt), k - 1, dt)
  }

  /** `t` is `n` after its own step: only the motion state differs (children aside). */
  predicate SteppedFrom(t: Node, n: Node, dt: real) {
    t.motion == Step(n.motion, n.gravityAffected, dt) && t.(motion := n.motion, children := n.children) == n
  }

  /** Each node of `ts` is the node at the same place in `ns` after its own step. */
  predicate AllStepped(ts: seq<Node>, ns: seq<Node>, dt: real) {
    |ts| == |ns| && forall i :: 0 <= i < |ns| ==> SteppedFrom(ts[i], ns[i], dt)
  }

  lemma AllSteppedConcat(t1: seq<Node>, n1: seq<Node>, t2: seq<Node>, n2: seq<Node>, dt: real)
    requires AllStepped(t1, n1, dt) && AllStepped(t2, n2, dt)
    ensures AllStepped(t1 + t2, n1 + n2, dt)
  {
    var ts, ns := t1 + t2, n1 + n2;
    forall i | 0 <= i < |ns|
      ensures SteppedFrom(ts[i], ns[i], dt)
    {
      if i < |n1| {
        assert ts[i] == t1[i] && ns[i] == n1[i];
      } else {
        assert ts[i] == t2[i - |n1|] && ns[i] == n2[i - |n1|];
      }
    }
  }

  /**
   * Ticking a tree steps every node exactly once, in pre-order, with the
   * same dt, and keeps the shape of the tree.
   */
  lemma {:induction false} TickPreOrder(n: Node, dt: real)
    ensures AllStepped(PreOrder(Tick(n, dt)), PreOrder(n), dt)
    decreases n
  {
    var t := Tick(n, dt);
    TickForestPreOrder(n.children, dt);
    assert AllStepped([t], [n], dt);
    AllSteppedConcat([t], [n], Forest(TickForest(n.children, dt)), Forest(n.children), dt);
  }

  lemma {:induction false} TickForestPreOrder(cs: seq<Node>, dt: real)
    ensures AllStepped(Forest(TickForest(cs, dt)), Forest(cs), dt)
    decreases cs
  {
    if cs != [] {
      var ts := TickForest(cs, dt);
      assert ts[0] == Tick(cs[0], dt);
      assert ts[1..] == TickForest(cs[1..], dt);
      TickPreOrder(cs[0], dt);
      TickForestPreOrder(cs[1..], dt);
      AllSteppedConcat(PreOrder(ts[0]), PreOrder(cs[0]), Forest(ts[1..]), Forest(cs[1..]), dt);
    }
  }

  /** After a tick no node of the tree is below the ground plane. */
  lemma TickGrounded(n: Node, dt: real)
    ensures forall i :: 0 <= i < |PreOrder(Tick(n, dt))| ==> PreOrder(Tick(n, dt))[i].motion.position.y >= 0.0
  {
    TickPreOrder(n, dt);
  }

  /* ---------------------------------------------------------------------- */
  /* Fixed points of the integrator                                        */
  /* ---------------------------------------------------------------------- */

  /** A node's motion the integrator leaves where it is. */
  predicate AtRest(m: Motion, gravityAffected: bool) {
    && m.velocity == Zero && m.rotVelocity == Zero
    && m.acceleration == Zero && m.rotAcceleration == Zero
    && m.position.y >= 0.0
    && (!gravityAffected || m.position.y == 0.0)
  }

  predicate AllAtRest(n: Node) {
    forall k :: k in PreOrder(n) ==> AtRest(k.motion, k.gravityAffected)
  }

  lemma StepAtRest(m: Motion, g: bool, dt: real)
    requires AtRest(m, g)
    ensures Step(m, g, dt) == m
  {
    StepPhases(m, g, dt);
    IntegrateAtRest(m, dt);
    GravityAtRest(m, g, dt);
    DecelerateAtRest(m, dt);
  }

  lemma GravityAtRest(m: Motion, g: bool, dt: real)
    requires AtRest(m, g)
    ensures ClampToGround(ApplyGravity(m, g, dt)) == m
  {
    assert !GravityApplies(m, g);
  }

  /** A frame is the four phases in order. */
  lemma StepPhases(m: Motion, g: bool, dt: real)
    ensures Step(m, g, dt) == Decelerate(ClampToGround(ApplyGravity(Integrate(m, dt), g, dt)), dt)
  {
  }

  lemma IntegrateAtRest(m: Motion, dt: real)
    requires m.velocity == Zero && m.rotVelocity == Zero
    requires m.acceleration == Zero && m.rotAcceleration == Zero
    ensures Integrate(m, dt) == m
  {
    AdvanceAtRateZero(m.position, dt);
    AdvanceAtRateZero(m.velocity, dt);
    AdvanceAtRateZero(m.orientation, dt);
    AdvanceAtRateZero(m.rotVelocity, dt);
  }

  lemma DecelerateAtRest(m: Motion, dt: real)
    requires m.velocity == Zero
    ensures Decelerate(m, dt) == m
  {
  }

  lemma {:induction false} TickAtRest(n: Node, dt: real)
    requires AllAtRest(n)
    ensures Tick(n, dt) == n
    decreases n
  {
    assert AtRest(n.motion, n.gravityAffected) by {
      assert PreOrder(n)[0] == n;
    }
    assert TickForest(n.children, dt) == n.children by {
      assert PreOrder(n) == [n] + Forest(n.children);
      TickForestAtRest(n.children, dt);
    }
    StepAtRest(n.motion, n.gravityAffected, dt);
    TickFixedPoint(n, dt);
  }

  /** A node whose own step and whose subtrees all stay put stays put. */
  lemma TickFixedPoint(n: Node, dt: real)
    requires Step(n.motion, n.gravityAffected, dt) == n.motion
    requires TickForest(n.children, dt) == n.children
    ensures Tick(n, dt) == n
  {
  }

  lemma {:induction false} TickForestAtRest(cs: seq<Node>, dt: real)
    requires forall k :: k in Forest(cs) ==> AtRest(k.motion, k.gravityAffected)
    ensures TickForest(cs, dt) == cs
    decreases cs
  {
    if cs != [] {
      assert Forest(cs) == PreOrder(cs[0]) + Forest(cs[1..]);
      TickAtRest(cs[0], dt);
      TickForestAtRest(cs[1..], dt);
      assert cs == [cs[0]] + cs[1..];
    }
  }

  /** A resting tree is unchanged by any number of frames. */
  lemma {:induction false} RestingTreeStaysPut(n: Node, k: nat, dt: real)
    requires AllAtRest(n)
    ensures TickTimes(n, k, dt) == n
    decreases k
  {
    if k > 0 {
      TickAtRest(n, dt);
      RestingTreeStaysPut(n, k - 1, dt);
    }
  }

  /* ---------------------------------------------------------------------- */
  /* Worked frames                                                          */
  /* ---------------------------------------------------------------------- */

  /**
   * A node one unit below ground falling at 5: the clamp lifts it to 0 and
   * reflects half the speed, then deceleration takes 2.5 * dt off.
   */
  lemma GroundCollisionFrame(n: Node, dt: real)
    requires n.motion.position.y == -1.0 && n.motion.velocity.y == -5.0 && n.motion.acceleration.y == 0.0
    requires dt >= 0.0
    ensures Tick(n, dt).motion.position.y == 0.0
    ensures Tick(n, dt).motion.velocity.y == 2.5 - 2.5 * dt
  {
    var m := n.motion;
    assert Advance(m.position, m.velocity, dt).y < 0.0;
    assert Advance(m.velocity, m.acceleration, dt).y == -5.0;
    assert DecayAxis(-0.5 * -5.0, 0.0, dt) == 2.5 - 2.5 * dt;
    StepVelocity(m, n.gravityAffected, dt);
  }

  /**
   * A resting gravity-affected node at height 10, one frame of dt = 1: gravity
   * takes 13.81, and the deceleration phase then gives 2.5 back.
   */
  lemma GravityFrame(n: Node)
    requires n.motion.position.y == 10.0 && n.motion.velocity == Zero && n.motion.acceleration == Zero
    requires n.gravityAffected
    ensures Tick(n, 1.0).motion.position.y == 10.0
    ensures Tick(n, 1.0).motion.velocity.y == -11.31
  {
    var m := n.motion;
    assert Advance(m.position, m.velocity, 1.0).y == 10.0 by {
      AdvanceAtRateZero(m.position, 1.0);
    }
    assert Advance(m.velocity, m.acceleration, 1.0).y == 0.0 by {
      AdvanceAtRateZero(m.velocity, 1.0);
    }
    assert DecayAxis(0.0 - 13.81 * 1.0, 0.0, 1.0) == -11.31;
    StepVelocity(m, true, 1.0);
  }

  /** Deceleration is not clamped: a slow axis reverses direction within one frame. */
  lemma DecelerationOvershoots()
    ensures DecayAxis(1.0, 0.0, 1.0) == -1.5
  {
  }

  /** With enough speed, deceleration keeps the direction and takes exactly 2.5 * dt off the speed. */
  lemma DecelerationSlows(v: real, dt: real)
    requires dt >= 0.0 && (v >= 2.5 * dt || v <= -2.5 * dt) && v != 0.0
    ensures DecayAxis(v, 0.0, dt) * v >= 0.0
    ensures v > 0.0 ==> DecayAxis(v, 0.0, dt) == v - 2.5 * dt
    ensures v < 0.0 ==> DecayAxis(v, 0.0, dt) == v + 2.5 * dt
  {
  }

  /* ---------------------------------------------------------------------- */
  /* Render traversal                                                       */
  /* ---------------------------------------------------------------------- */

  /** The fields `buildModelMatrix` reads. */
  datatype Pose = Pose(position: Vec3, orientation: Vec3, scale: Vec3, center: Vec3, baseTransform: Mat4)

  function PoseOf(n: Node): Pose {
    Pose(n.motion.position, n.motion.orientation, n.scale, n.center, n.baseTransform)
  }

  /** One node's draw: the composed model matrix and shininess set, then its mesh batches. */
  datatype Draw<M> = Draw(model: M, shininess: real, meshes: seq<Mesh>)

  /** `renderRecursive`: world = parent x local, pushed down to the children. */
  function RenderRecursive<M>(n: Node, parent: M, mul: (M, M) -> M, local: Pose -> M): (r: seq<Draw<M>>)
    ensures |r| == |PreOrder(n)|
    ensures r[0] == Draw(mul(parent, local(PoseOf(n))), n.shininess, n.meshes)
    decreases n
  {
    var world := mul(parent, local(PoseOf(n)));
    [Draw(world, n.shininess, n.meshes)] + RenderForest(n.children, world, mul, local)
  }

  /** The children's subtrees one after another, each drawn from the same parent matrix. */
  function RenderForest<M>(cs: seq<Node>, parent: M, mul: (M, M) -> M, local: Pose -> M): (r: seq<Draw<M>>)
    ensures |r| == |Forest(cs)|
    ensures r == [] <==> Forest(cs) == []
    ensures cs != [] ==> r[0] == Draw(mul(parent, local(PoseOf(cs[0]))), cs[0].shininess, cs[0].meshes)
    decreases cs
  {
    if cs == [] then []
    else RenderRecursive(cs[0], parent, mul, local) + RenderForest(cs[1..], parent, mul, local)
  }

  /** `render`: nothing at all when the root is hidden, else the whole subtree from the identity. */
  function Render<M>(n: Node, identity: M, mul: (M, M) -> M, local: Pose -> M): (r: seq<Draw<M>>)
    ensures r == [] <==> !n.display
    ensures n.display ==> |r| == |PreOrder(n)|
    ensures n.display ==> r[0].model == mul(identity, local(PoseOf(n)))
  {
    if n.display then RenderRecursive(n, identity, mul, local) else []
  }

  /* Reference definition of the traversal: root-to-node paths in pre-order. */

  function Prepend(n: Node, ps: seq<seq<Node>>): (r: seq<seq<Node>>)
    ensures |r| == |ps|
    ensures forall i :: 0 <= i < |ps| ==> r[i] == [n] + ps[i]
  {
    seq(|ps|, i requires 0 <= i < |ps| => [n] + ps[i])
  }

  /** For each node of the subtree, in pre-order, the path from `n` down to it. */
  function Paths(n: Node): seq<seq<Node>>
    decreases n
  {
    [[n]] + Prepend(n, ForestPaths(n.children))
  }

  function ForestPaths(cs: seq<Node>): seq<seq<Node>>
    decreases cs
  {
    if cs == [] then [] else Paths(cs[0]) + ForestPaths(cs[1..])
  }

  /** The product parent x local(p[0]) x ... x local(p[k]), folded from the root down. */
  function PathProduct<M>(parent: M, path: seq<Node>, mul: (M, M) -> M, local: Pose -> M): M
    decreases |path|
  {
    if path == [] then parent
    else PathProduct(mul(parent, local(PoseOf(path[0]))), path[1..], mul, local)
  }

  /**
   * Draw `i` belongs to node `i`, and its model matrix is the product, from
   * `parent` down, of the local matrices on path `i`, which ends at that node.
   */
  ghost predicate FollowsPaths<M>(r: seq<Draw<M>>, paths: seq<seq<Node>>, nodes: seq<Node>, parent: M, mul: (M, M) -> M, local: Pose -> M)
  {
    && |r| == |paths| == |nodes|
    && forall i :: 0 <= i < |r| ==>
         && |paths[i]| > 0 && paths[i][|paths[i]| - 1] == nodes[i]
         && r[i] == Draw(PathProduct(parent, paths[i], mul, local), nodes[i].shininess, nodes[i].meshes)
  }

  /** Folding a path that starts at `n` is folding the rest from `n`'s world matrix. */
  lemma PathProductCons<M>(parent: M, n: Node, q: seq<Node>, mul: (M, M) -> M, local: Pose -> M)
    ensures PathProduct(parent, [n] + q, mul, local) == PathProduct(mul(parent, local(PoseOf(n))), q, mul, local)
  {
    assert ([n] + q)[1..] == q;
  }

  /** Two traversals side by side, with the same parent, follow their paths side by side. */
  lemma FollowsPathsConcat<M>(r1: seq<Draw<M>>, p1: seq<seq<Node>>, n1: seq<Node>,
                              r2: seq<Draw<M>>, p2: seq<seq<Node>>, n2: seq<Node>,
                              parent: M, mul: (M, M) -> M, local: Pose -> M)
    requires FollowsPaths(r1, p1, n1, parent, mul, local)
    requires FollowsPaths(r2, p2, n2, parent, mul, local)
    ensures FollowsPaths(r1 + r2, p1 + p2, n1 + n2, parent, mul, local)
  {
    var r, p, ns := r1 + r2, p1 + p2, n1 + n2;
    forall i | 0 <= i < |r|
      ensures && |p[i]| > 0 && p[i][|p[i]| - 1] == ns[i]
              && r[i] == Draw(PathProduct(parent, p[i], mul, local), ns[i].shininess, ns[i].meshes)
    {
      if i < |r1| {
        assert r[i] == r1[i] && p[i] == p1[i] && ns[i] == n1[i];
      } else {
        var j := i - |r1|;
        assert r[i] == r2[j] && p[i] == p2[j] && ns[i] == n2[j];
      }
    }
  }

  /**
   * Putting node `n` in front of a traversal of its children, drawn from `n`'s
   * world matrix, gives a traversal from `n`'s parent whose paths all start at `n`.
   */
  lemma FollowsPathsPrepend<M>(n: Node, r: seq<Draw<M>>, ps: seq<seq<Node>>, ns: seq<Node>,
                               parent: M, mul: (M, M) -> M, local: Pose -> M)
    requires FollowsPaths(r, ps, ns, mul(parent, local(PoseOf(n))), mul, local)
    ensures FollowsPaths([Draw(mul(parent, local(PoseOf(n))), n.shininess, n.meshes)] + r,
                         [[n]] + Prepend(n, ps), [n] + ns, parent, mul, local)
    ensures forall i :: 0 <= i < |ps| + 1 ==> ([[n]] + Prepend(n, ps))[i][0] == n
  {
    var world := mul(parent, local(PoseOf(n)));
    var r', p', ns' := [Draw(world, n.shininess, n.meshes)] + r, [[n]] + Prepend(n, ps), [n] + ns;
    forall i | 0 <= i < |r'|
      ensures && |p'[i]| > 0 && p'[i][0] == n && p'[i][|p'[i]| - 1] == ns'[i]
              && r'[i] == Draw(PathProduct(parent, p'[i], mul, local), ns'[i].shininess, ns'[i].meshes)
    {
      if i == 0 {
        PathProductCons(parent, n, [], mul, local);
        assert [n] + [] == [n];
      } else {
        assert p'[i] == [n] + ps[i - 1] && r'[i] == r[i - 1] && ns'[i] == ns[i - 1];
        PrependedPath(n, r, ps, ns, parent, mul, local, i - 1);
      }
    }
  }

  /** One draw of a traversal of `n`'s children, read from `n`'s parent through `n`. */
  lemma PrependedPath<M>(n: Node, r: seq<Draw<M>>, ps: seq<seq<Node>>, ns: seq<Node>,
                         parent: M, mul: (M, M) -> M, local: Pose -> M, j: nat)
    requires FollowsPaths(r, ps, ns, mul(parent, local(PoseOf(n))), mul, local)
    requires j < |r|
    ensures var q := [n] + ps[j];
            && q[0] == n && q[|q| - 1] == ns[j]
            && r[j] == Draw(PathProduct(parent, q, mul, local), ns[j].shininess, ns[j].meshes)
  {
    PathProductCons(parent, n, ps[j], mul, local);
  }

  /**
   * The i-th draw of a traversal belongs to the i-th node in pre-order, and
   * its model matrix is the product of the local matrices on the path from
   * the root to that node, in root-to-leaf order.
   */
  lemma {:induction false} RenderFollowsPaths<M>(n: Node, parent: M, mul: (M, M) -> M, local: Pose -> M)
    ensures FollowsPaths(RenderRecursive(n, parent, mul, local), Paths(n), PreOrder(n), parent, mul, local)
    ensures forall i :: 0 <= i < |Paths(n)| ==> Paths(n)[i][0] == n
    decreases n
  {
    var world := mul(parent, local(PoseOf(n)));
    RenderForestFollowsPaths(n.children, world, mul, local);
    FollowsPathsPrepend(n, RenderForest(n.children, world, mul, local), ForestPaths(n.children), Forest(n.children), parent, mul, local);
  }

  lemma {:induction false} RenderForestFollowsPaths<M>(cs: seq<Node>, parent: M, mul: (M, M) -> M, local: Pose -> M)
    ensures FollowsPaths(RenderForest(cs, parent, mul, local), ForestPaths(cs), Forest(cs), parent, mul, local)
    decreases cs
  {
    if cs != [] {
      RenderFollowsPaths(cs[0], parent, mul, local);
      RenderForestFollowsPaths(cs[1..], parent, mul, local);
      FollowsPathsConcat(RenderRecursive(cs[0], parent, mul, local), Paths(cs[0]), PreOrder(cs[0]),
                         RenderForest(cs[1..], parent, mul, local), ForestPaths(cs[1..]), Forest(cs[1..]),
                         parent, mul, local);
    }
  }

  /** With a left identity for the product, the root is drawn with its own local matrix. */
  lemma RenderRootIsLocal<M>(n: Node, identity: M, mul: (M, M) -> M, local: Pose -> M)
    requires forall p: Pose :: mul(identity, local(p)) == local(p)
    requires n.display
    ensures Render(n, identity, mul, local)[0].model == local(PoseOf(n))
  {
  }

  /** Sets the display flag of every node of a subtree. */
  function WithDisplay(n: Node, b: bool): Node
    decreases n
  {
    n.(display := b, children := WithDisplayForest(n.children, b))
  }

  function WithDisplayForest(cs: seq<Node>, b: bool): (r: seq<Node>)
    ensures |r| == |cs|
    decreases cs
  {
    if cs == [] then [] else [WithDisplay(cs[0], b)] + WithDisplayForest(cs[1..], b)
  }

  /** Below the root, display flags are never consulted: the traversal ignores them. */
  lemma {:induction false} RenderIgnoresDisplay<M>(n: Node, b: bool, parent: M, mul: (M, M) -> M, local: Pose -> M)
    ensures RenderRecursive(WithDisplay(n, b), parent, mul, local) == RenderRecursive(n, parent, mul, local)
    decreases n
  {
    var world := mul(parent, local(PoseOf(n)));
    assert PoseOf(WithDisplay(n, b)) == PoseOf(n);
    RenderForestIgnoresDisplay(n.children, b, world, mul, local);
  }

  lemma {:induction false} RenderForestIgnoresDisplay<M>(cs: seq<Node>, b: bool, parent: M, mul: (M, M) -> M, local: Pose -> M)
    ensures RenderForest(WithDisplayForest(cs, b), parent, mul, local) == RenderForest(cs, parent, mul, local)
    decreases cs
  {
    if cs != [] {
      var ws := WithDisplayForest(cs, b);
      assert ws[0] == WithDisplay(cs[0], b);
      assert ws[1..] == WithDisplayForest(cs[1..], b);
      RenderIgnoresDisplay(cs[0], b, parent, mul, local);
      RenderForestIgnoresDisplay(cs[1..], b, parent, mul, local);
    }
  }

  /** `render` consults only the root's flag: hiding every descendant changes nothing. */
  lemma RenderOnlyRootDisplay<M>(n: Node, identity: M, mul: (M, M) -> M, local: Pose -> M)
    ensures Render(WithDisplay(n, false).(display := n.display), identity, mul, local)
         == Render(n, identity, mul, local)
  {
    RenderIgnoresDisplay(n, false, identity, mul, local);
    var w := WithDisplay(n, false);
    assert PoseOf(w.(display := n.display)) == PoseOf(w);
    assert RenderRecursive(w.(display := n.display), identity, mul, local)
        == RenderRecursive(w, identity, mul, local);
  }
}

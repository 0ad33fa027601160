/**
 * The step functions of the three animation kinds and the state of the
 * animation sequencer, as far as its header defines it.
 *
 * Every animation drives one target node. In the program the target is held
 * by reference; here a step takes the node and returns the updated node.
 * The elapsed time of an animation is kept by a base class whose body is not
 * part of this model, so the Bezier step receives it as an explicit input.
 */
module Animations {
  import opened Vectors
  import opened SceneNode

  datatype Option<T> = None | Some(value: T)

  datatype Animation =
      /** Moves the target at a constant rate, fixed when it is built. */
    | Translation(duration: real, perSecond: Vec3)
      /** Places the target on a cubic Bezier curve through four control points. */
    | BezierTranslation(duration: real, start: Vec3, mid1: Vec3, mid2: Vec3, end: Vec3)
      /** Waits for its duration and leaves the target alone. */
    | Pause(duration: real)

  // ---------------------------------------------------------------------
  // Construction
  // ---------------------------------------------------------------------

  /** The rate is the total movement spread evenly over the duration, which is a divisor. */
  function NewTranslation(duration: real, totalMovement: Vec3): (a: Animation)
    requires duration != 0.0
    ensures a.Translation? && a.duration == duration
    ensures Scale(a.perSecond, duration) == totalMovement
  {
    Translation(duration, Div(totalMovement, duration))
  }

  /** The four control points are kept exactly as given. */
  function NewBezierTranslation(duration: real, start: Vec3, mid1: Vec3, mid2: Vec3, end: Vec3): (a: Animation)
    ensures a.BezierTranslation? && a.duration == duration
    ensures a.start == start && a.mid1 == mid1 && a.mid2 == mid2 && a.end == end
  {
    BezierTranslation(duration, start, mid1, mid2, end)
  }

  /** A pause has nothing but its duration. */
  function NewPause(duration: real): (a: Animation)
    ensures a.Pause? && a.duration == duration
  {
    Pause(duration)
  }

  // ---------------------------------------------------------------------
  // The cubic Bezier curve
  // ---------------------------------------------------------------------

  /**
   * One coordinate of the curve, with the same intermediate powers as the
   * program. It agrees with de Casteljau's construction everywhere, so it
   * starts at `s` and ends at `e`.
   */
  function BezierAxis(t: real, s: real, m1: real, m2: real, e: real): (r: real)
    ensures r == DeCasteljau(t, s, m1, m2, e)
    ensures t == 0.0 ==> r == s
    ensures t == 1.0 ==> r == e
  {
    var invT := 1.0 - t;
    var tSquared := t * t;
    var invTSquared := invT * invT;
    var tCubed := tSquared * t;
    var invTCubed := invTSquared * invT;
    var r := invTCubed * s + 3.0 * invTSquared * t * m1 + 3.0 * invT * tSquared * m2 + tCubed * e;
    assert r == Bernstein(invT, t, s, m1, m2, e);
    DeCasteljauIsBernstein(t, s, m1, m2, e);
    r
  }

  /**
   * The point of the curve at parameter `t`: de Casteljau's construction on
   * each coordinate, the start point at 0, the end point at 1, and the common
   * point when all four control points coincide.
   */
  function BezierPoint(a: Animation, t: real): (p: Vec3)
    requires a.BezierTranslation?
    ensures p.x == DeCasteljau(t, a.start.x, a.mid1.x, a.mid2.x, a.end.x)
    ensures p.y == DeCasteljau(t, a.start.y, a.mid1.y, a.mid2.y, a.end.y)
    ensures p.z == DeCasteljau(t, a.start.z, a.mid1.z, a.mid2.z, a.end.z)
    ensures t == 0.0 ==> p == a.start
    ensures t == 1.0 ==> p == a.end
    ensures a.start == a.mid1 == a.mid2 == a.end ==> p == a.start
  {
    BezierAxisConstant(t, a.start.x);
    BezierAxisConstant(t, a.start.y);
    BezierAxisConstant(t, a.start.z);
    Vec3(BezierAxis(t, a.start.x, a.mid1.x, a.mid2.x, a.end.x),
         BezierAxis(t, a.start.y, a.mid1.y, a.mid2.y, a.end.y),
         BezierAxis(t, a.start.z, a.mid1.z, a.mid2.z, a.end.z))
  }

  /**
   * An independent definition of the same curve: de Casteljau's construction,
   * three rounds of linear interpolation between neighbouring control points.
   */
  function DeCasteljau(t: real, s: real, m1: real, m2: real, e: real): real {
    var q0 := Lerp(s, t, m1);
    var q1 := Lerp(m1, t, m2);
    var q2 := Lerp(m2, t, e);
    Lerp(Lerp(q0, t, q1), t, Lerp(q1, t, q2))
  }

  /** Two rounds of interpolation give the quadratic Bernstein form. */
  lemma QuadraticRound(t: real, a: real, b: real, c: real)
    ensures Lerp(Lerp(a, t, b), t, Lerp(b, t, c))
         == (1.0 - t) * (1.0 - t) * a + 2.0 * (1.0 - t) * t * b + t * t * c
  {
    var u := 1.0 - t;
    assert Lerp(a, t, b) == a * u + b * t;
    assert Lerp(b, t, c) == b * u + c * t;
    calc {
      Lerp(Lerp(a, t, b), t, Lerp(b, t, c));
      (a * u + b * t) * u + (b * u + c * t) * t;
      u * u * a + 2.0 * u * t * b + t * t * c;
    }
  }

  /** The cubic Bernstein form, with `u = 1 - t`. */
  function Bernstein(u: real, t: real, s: real, m1: real, m2: real, e: real): real {
    u * u * u * s + 3.0 * u * u * t * m1 + 3.0 * u * t * t * m2 + t * t * t * e
  }

  /** The program's intermediate powers compute the Bernstein form. */
  lemma BezierAxisIsBernstein(t: real, s: real, m1: real, m2: real, e: real)
    ensures BezierAxis(t, s, m1, m2, e) == Bernstein(1.0 - t, t, s, m1, m2, e)
  {
  }

  /** De Casteljau's construction computes the Bernstein form. */
  lemma DeCasteljauIsBernstein(t: real, s: real, m1: real, m2: real, e: real)
    ensures DeCasteljau(t, s, m1, m2, e) == Bernstein(1.0 - t, t, s, m1, m2, e)
  {
    var u := 1.0 - t;
    var r0 := Lerp(Lerp(s, t, m1), t, Lerp(m1, t, m2));
    var r1 := Lerp(Lerp(m1, t, m2), t, Lerp(m2, t, e));
    QuadraticRound(t, s, m1, m2);
    QuadraticRound(t, m1, m2, e);
    assert DeCasteljau(t, s, m1, m2, e) == r0 * u + r1 * t;
    CubicCollect(u, t, s, m1, m2, e);
  }

  /** The program's power form and de Casteljau's construction agree at every parameter. */
  lemma BezierIsDeCasteljau(t: real, s: real, m1: real, m2: real, e: real)
    ensures BezierAxis(t, s, m1, m2, e) == DeCasteljau(t, s, m1, m2, e)
  {
    BezierAxisIsBernstein(t, s, m1, m2, e);
    DeCasteljauIsBernstein(t, s, m1, m2, e);
  }

  /** Collecting the terms of the last interpolation round. */
  lemma CubicCollect(u: real, t: real, s: real, m1: real, m2: real, e: real)
    ensures (u * u * s + 2.0 * u * t * m1 + t * t * m2) * u + (u * u * m1 + 2.0 * u * t * m2 + t * t * e) * t
         == Bernstein(u, t, s, m1, m2, e)
  {
  }

  /** The curve starts at the start point: at `t = 0` every other weight vanishes. */
  lemma BezierAtZero(a: Animation)
    requires a.BezierTranslation?
    ensures BezierPoint(a, 0.0) == a.start
  {
  }

  /** The curve ends at the end point: at `t = 1` every other weight vanishes. */
  lemma BezierAtOne(a: Animation)
    requires a.BezierTranslation?
    ensures BezierPoint(a, 1.0) == a.end
  {
  }

  /** The four Bernstein weights sum to one, for every parameter. */
  lemma WeightsSumToOne(t: real)
    ensures var u := 1.0 - t;
            (u * u) * u + 3.0 * (u * u) * t + 3.0 * u * (t * t) + (t * t) * t == 1.0
  {
    var u := 1.0 - t;
    assert u + t == 1.0;
    calc {
      (u * u) * u + 3.0 * (u * u) * t + 3.0 * u * (t * t) + (t * t) * t;
      (u + t) * (u + t) * (u + t);
      1.0;
    }
  }

  /** A curve whose control points coincide stays on that point. */
  lemma BezierAxisConstant(t: real, p: real)
    ensures BezierAxis(t, p, p, p, p) == p
  {
    var u := 1.0 - t;
    WeightsSumToOne(t);
    calc {
      BezierAxis(t, p, p, p, p);
      (u * u) * u * p + 3.0 * (u * u) * t * p + 3.0 * u * (t * t) * p + (t * t) * t * p;
      ((u * u) * u + 3.0 * (u * u) * t + 3.0 * u * (t * t) + (t * t) * t) * p;
      p;
    }
  }

  lemma BezierConstant(a: Animation, t: real)
    requires a.BezierTranslation?
    requires a.start == a.mid1 == a.mid2 == a.end
    ensures BezierPoint(a, t) == a.start
  {
    BezierAxisConstant(t, a.start.x);
    BezierAxisConstant(t, a.start.y);
    BezierAxisConstant(t, a.start.z);
  }

  // ---------------------------------------------------------------------
  // Steps
  // ---------------------------------------------------------------------

  /**
   * One step of an animation on its target. `currentTime` is the animation's
   * elapsed time, which only the Bezier step reads; `dt` is the frame time,
   * which the Bezier and pause steps ignore.
   */
  function Apply(a: Animation, n: Node, currentTime: real, dt: real): (r: Node)
    requires a.BezierTranslation? ==> a.duration != 0.0
    ensures r.motion.(position := n.motion.position) == n.motion
    ensures r.(motion := n.motion) == n
    ensures a.Translation? ==> r.motion.position == Advance(n.motion.position, a.perSecond, dt)
    ensures a.BezierTranslation? ==> r.motion.position == BezierPoint(a, currentTime / a.duration)
    ensures a.Pause? ==> r == n
  {
    match a
    case Translation(_, perSecond) => Move(n, Scale(perSecond, dt))
    case BezierTranslation(duration, _, _, _, _) => SetPosition(n, BezierPoint(a, currentTime / duration))
    case Pause(_) => n
  }

  /** At elapsed time 0 a Bezier step puts the target on the start point. */
  lemma BezierStepAtStart(a: Animation, n: Node, dt: real)
    requires a.BezierTranslation? && a.duration != 0.0
    ensures Apply(a, n, 0.0, dt) == SetPosition(n, a.start)
  {
    BezierAtZero(a);
  }

  /** At elapsed time equal to the duration a Bezier step puts the target on the end point. */
  lemma BezierStepAtEnd(a: Animation, n: Node, dt: real)
    requires a.BezierTranslation? && a.duration != 0.0
    ensures Apply(a, n, a.duration, dt) == SetPosition(n, a.end)
  {
    assert a.duration / a.duration == 1.0;
    BezierAtOne(a);
  }

  /**
   * A Bezier step is absolute: where the target was before and the frame time
   * make no difference to where it is put.
   */
  lemma BezierStepIsAbsolute(a: Animation, n1: Node, n2: Node, currentTime: real, dt1: real, dt2: real)
    requires a.BezierTranslation? && a.duration != 0.0
    ensures Apply(a, n1, currentTime, dt1).motion.position == Apply(a, n2, currentTime, dt2).motion.position
  {
  }

  /** A translation step does not read the elapsed time. */
  lemma TranslationIgnoresElapsedTime(a: Animation, n: Node, t1: real, t2: real, dt: real)
    requires a.Translation?
    ensures Apply(a, n, t1, dt) == Apply(a, n, t2, dt)
  {
  }

  /** A pause step does not read the frame time. */
  lemma PauseIgnoresFrameTime(a: Animation, n: Node, currentTime: real, dt1: real, dt2: real)
    requires a.Pause?
    ensures Apply(a, n, currentTime, dt1) == Apply(a, n, currentTime, dt2)
  {
  }

  /** Sum of a list of frame times. */
  function Total(dts: seq<real>): real
    decreases |dts|
  {
    if dts == [] then 0.0 else dts[0] + Total(dts[1..])
  }

  /** Successive steps of one animation, one per frame time; the elapsed time is held fixed. */
  function Steps(a: Animation, n: Node, currentTime: real, dts: seq<real>): (r: Node)
    requires a.BezierTranslation? ==> a.duration != 0.0
    decreases |dts|
  {
    if dts == [] then n else Steps(a, Apply(a, n, currentTime, dts[0]), currentTime, dts[1..])
  }

  /** Over several frames a translation moves its target by the rate times the total time, and changes nothing else. */
  lemma {:induction false} TranslationSteps(a: Animation, n: Node, currentTime: real, dts: seq<real>)
    requires a.Translation?
    ensures Steps(a, n, currentTime, dts).motion.position == Advance(n.motion.position, a.perSecond, Total(dts))
    ensures Steps(a, n, currentTime, dts).motion.(position := n.motion.position) == n.motion
    ensures Steps(a, n, currentTime, dts).(motion := n.motion) == n
    decreases |dts|
  {
    if dts == [] {
      AdvanceAtRateZero(n.motion.position, 0.0);
      assert Advance(n.motion.position, a.perSecond, 0.0) == n.motion.position by {
        assert Scale(a.perSecond, 0.0) == Zero;
      }
    } else {
      var n1 := Apply(a, n, currentTime, dts[0]);
      TranslationSteps(a, n1, currentTime, dts[1..]);
      AdvanceAdditive(n.motion.position, a.perSecond, dts[0], Total(dts[1..]));
    }
  }

  /** Frames that add up to the duration move the target by exactly the total movement it was built with. */
  lemma TranslationCompletes(duration: real, totalMovement: Vec3, n: Node, currentTime: real, dts: seq<real>)
    requires duration != 0.0
    requires Total(dts) == duration
    ensures Steps(NewTranslation(duration, totalMovement), n, currentTime, dts).motion.position
         == Add(n.motion.position, totalMovement)
  {
    TranslationSteps(NewTranslation(duration, totalMovement), n, currentTime, dts);
  }

  /** Any number of pause steps leave the target as it was. */
  lemma {:induction false} PauseSteps(a: Animation, n: Node, currentTime: real, dts: seq<real>)
    requires a.Pause?
    ensures Steps(a, n, currentTime, dts) == n
    decreases |dts|
  {
    if dts != [] {
      PauseSteps(a, n, currentTime, dts[1..]);
    }
  }

  // ---------------------------------------------------------------------
  // The sequencer
  // ---------------------------------------------------------------------

  /**
   * The sequencer's state. Each entry of `factories` builds one animation when
   * its turn comes; `F` stands for those builder functions. There is a single
   * slot for the active animation, and the index is signed.
   */
  datatype Animator<F> = Animator(
    currentTime: real,
    nextTransition: real,
    factories: seq<F>,
    current: Option<Animation>,
    currentIndex: int)

  /** A new sequencer has run for no time, has nothing active and sits before the first entry. */
  function NewAnimator<F>(): (r: Animator<F>)
    ensures r.currentTime == 0.0 && r.nextTransition == 0.0
    ensures r.factories == []
    ensures r.current == None
    ensures r.currentIndex == -1 && r.currentIndex < 0
  {
    Animator(0.0, 0.0, [], None, -1)
  }

  /** Adding an animation appends its builder at the end and touches nothing else. */
  function AddAnimation<F>(an: Animator<F>, f: F): (r: Animator<F>)
    ensures |r.factories| == |an.factories| + 1
    ensures r.factories[..|an.factories|] == an.factories
    ensures r.factories[|an.factories|] == f
    ensures r.(factories := an.factories) == an
  {
    an.(factories := an.factories + [f])
  }

  /** Adding builders one after another. */
  function AddAll<F>(an: Animator<F>, fs: seq<F>): Animator<F>
    decreases |fs|
  {
    if fs == [] then an else AddAll(AddAnimation(an, fs[0]), fs[1..])
  }

  /** The builders end up in the order they were added, after the earlier ones, and nothing else changes. */
  lemma {:induction false} AddAllAppends<F>(an: Animator<F>, fs: seq<F>)
    ensures AddAll(an, fs).factories == an.factories + fs
    ensures AddAll(an, fs).(factories := an.factories) == an
    decreases |fs|
  {
    if fs != [] {
      var an1 := AddAnimation(an, fs[0]);
      AddAllAppends(an1, fs[1..]);
      assert an1.factories + fs[1..] == an.factories + fs;
    }
  }

  /** A sequencer built from scratch holds exactly the added builders, still with nothing active. */
  lemma BuiltAnimator<F>(fs: seq<F>)
    ensures AddAll(NewAnimator<F>(), fs).factories == fs
    ensures AddAll(NewAnimator<F>(), fs).current == None
    ensures AddAll(NewAnimator<F>(), fs).currentIndex == -1
  {
    AddAllAppends(NewAnimator<F>(), fs);
  }
}

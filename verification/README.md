# Scene graph, animations and camera of a small OpenGL viewer, in Dafny

This project models the deterministic core of a C++ 3D scene viewer:

- **The scene-graph node (`Object3D`).**
  - Its constructors and value mutators (`move`, `rotate`, `grow`, `addChild`, `toggleGravity`).
  - The per-frame motion integrator `tick`: semi-implicit Euler, then gravity, then the ground clamp with restitution 0.5, then per-axis deceleration, then the children.
  - The pre-order render traversal `render`/`renderRecursive`.
- **The three animation step functions:** a constant-rate translation, an absolute cubic Bezier placement and a pause. Also the part of the `Animator` sequencer that its header defines.
- **The fly/orbit camera.** Keyboard, mouse-look, scroll, target and focus transitions, and the per-frame `update` with its interpolation weight and dirty flags.
- **The console dump of a node tree** (`printObjectTree`/`printObjectHierarchy`): numbered lines in pre-order with box-drawing connectors.

Modelling choices:

- Floats are Dafny `real`s. Every computation is exact, with no rounding.
- `glm::vec3` is `Vectors.Vec3`.
- A C++ truth test on a float (`if (yOff)`) is `!= 0.0`.
- Every entity is an immutable datatype. Each mutating member function becomes a pure function from the old value to the new one.

The matrices come from glm: `buildModelMatrix` composes three translations (by the position, by the centre times the scale, and by minus the centre after the scale), three rotations by angles and a scale, then multiplies by `m_baseTransform`, and `renderRecursive` multiplies that by the parent's matrix. None of these matrices is built here. So the traversal is generic over a matrix type `M`, a product `mul` and a function `local` from the fields `buildModelMatrix` reads (`Pose`). The camera stores the arguments it last passed to `lookAt` and `perspective` (`LookAt`, `Perspective`) in place of the matrices. The trigonometric recomputation of its front and right vectors is a function parameter `basis(yaw, pitch, up)`.

Files:

- `vectors.dfy`: module `Vectors`, vector arithmetic and `Lerp`.
- `scene_node.dfy`: module `SceneNode`, the node, the integrator and the traversal.
- `animation.dfy`: module `Animations`, the animations and the sequencer state.
- `camera.dfy`: module `CameraModel`.
- `tree_print.dfy`: module `TreePrint`.

Two worked frames show the order of the phases: deceleration runs after gravity and after the ground clamp.

- **Landing frame.** A node at height -1 falling at 5 is clamped to height 0, and the clamp turns its vertical velocity -5 into 2.5. Deceleration then takes 2.5·dt off, so the frame ends at 2.5 - 2.5·dt (`SceneNode.GroundCollisionFrame`).
- **Free-fall frame.** A resting gravity-affected node at height 10 is ticked with dt = 1. Gravity takes its vertical velocity from 0 to -13.81, and deceleration then adds 2.5, so the frame ends at -11.31 (`SceneNode.GravityFrame`).

The view guard in `Camera::update` is `callView || targetLerp > 0 || targetLerp < 1`, which holds for every value. The model keeps the guard as written and proves that the view is rebuilt on every frame (`CameraModel.ViewGuardAlwaysHolds`, `CameraModel.Update`).

## Model

| member | source | states |
|---|---|---|
| SceneNode.NewNodeWithBase | src/Object3D.cpp:21-26 | A new node has the given meshes and base transform and no children. Position, orientation, centre, forward, both velocities and both accelerations are zero. Scale is (1,1,1), shininess 4, and display and gravity are on. |
| SceneNode.NewNode | src/Object3D.cpp:17-19 | The one-argument constructor is the two-argument one with the identity matrix as base transform. |
| SceneNode.SetPosition | src/Object3D.cpp:95-97 | The position becomes the given point. No other field of the node changes. |
| SceneNode.Move | src/Object3D.cpp:148-150 | Each position component grows by the offset's component. No other field changes. |
| SceneNode.MoveInverse | src/Object3D.cpp:148-150 | Moving by an offset and then by its negation gives back the original node. |
| SceneNode.MoveCompose | src/Object3D.cpp:148-150 | Two moves are the same as one move by the sum of the offsets. |
| SceneNode.Rotate | src/Object3D.cpp:152-154 | Each orientation component grows by the rotation's component. No other field changes. |
| SceneNode.RotateCompose | src/Object3D.cpp:152-154 | Two rotations are the same as one rotation by the sum of the deltas. |
| SceneNode.Grow | src/Object3D.cpp:156-158 | Each scale component is multiplied by the growth's component. No other field changes. |
| SceneNode.GrowInverse | src/Object3D.cpp:156-158 | Growing by g and then by the componentwise reciprocal restores the node, provided no component of g is zero. |
| SceneNode.AddChild | src/Object3D.cpp:160-162 | There is exactly one more child, at the end, and the earlier children are unchanged. Nothing else changes. |
| SceneNode.AddChildPreOrder | src/Object3D.cpp:160-162 | The pre-order listing of the tree gains exactly the new child's subtree, after every node it had before. |
| SceneNode.ToggleGravity | src/Object3D.cpp:176-178 | The gravity flag is negated. Nothing else changes. |
| SceneNode.ToggleGravityInvolution | src/Object3D.cpp:176-178 | Toggling twice restores the node. |
| SceneNode.SignOf | src/Object3D.cpp:164-166 | The result is -1, 0 or 1, and it is positive or negative exactly when x is. |
| SceneNode.Integrate | src/Object3D.cpp:202-206 | Position advances by the velocity held before this tick. Only then does velocity advance by the acceleration. Orientation and rotational velocity follow the same pattern. The accelerations are kept. |
| SceneNode.ApplyGravity | src/Object3D.cpp:209-213 | Vertical velocity drops by exactly 13.81·dt when three things hold: the node is gravity-affected, its already-integrated height is above 0, and its vertical acceleration is at most 0. Otherwise nothing changes. Nothing but vertical velocity ever changes. |
| SceneNode.ClampToGround | src/Object3D.cpp:216-219 | The height is never negative afterwards. A node below ground is put at height 0, and its vertical velocity becomes -0.5 times what it was. A node at or above ground is unchanged. |
| SceneNode.DecayAxis | src/Object3D.cpp:222-230 | An axis with non-zero acceleration keeps its velocity. An axis without acceleration loses 2.5·dt·sign(v). A velocity of zero stays zero. |
| SceneNode.Decelerate | src/Object3D.cpp:222-230 | The three axes decay independently, each by its own acceleration. Position, orientation and the other rates are untouched. |
| SceneNode.Step | src/Object3D.cpp:202-230 | After a node's own step its height is never negative. Horizontal position has advanced by the pre-tick velocity. Height is the integrated height, or 0 if that was negative. Orientation and rotational velocity have advanced, and the accelerations are unchanged. |
| SceneNode.StepVelocity | src/Object3D.cpp:202-230 | Gives the velocity after a step, case by case. Horizontal axes are integrated, then decelerated. Vertically there are three cases: gravity takes 13.81·dt while above ground, a landing reflects half the speed, and deceleration comes last in every case. |
| SceneNode.Tick | src/Object3D.cpp:190-235 | A tick is the node's own step with the same number of children. Every field other than the motion state and the children is unchanged. |
| SceneNode.TickForest | src/Object3D.cpp:232-234 | Each child is ticked with the same dt, in place, keeping count and order. |
| SceneNode.TickPreOrder | src/Object3D.cpp:190-235 | The ticked tree has as many nodes as before. Its i-th node in pre-order is the original i-th node after its own step, so every node is stepped exactly once. |
| SceneNode.TickGrounded | src/Object3D.cpp:190-235 | After a tick no node anywhere in the tree is below the ground plane. |
| SceneNode.StepAtRest | src/Object3D.cpp:202-230 | A node's own step leaves it unchanged under these conditions: zero velocities and accelerations, height at least 0, and height exactly 0 if it is gravity-affected. |
| SceneNode.TickAtRest | src/Object3D.cpp:190-235 | A tree whose every node is at rest is unchanged by a tick. |
| SceneNode.RestingTreeStaysPut | src/Object3D.cpp:190-235 | A tree whose every node is at rest is unchanged by any number of ticks. |
| SceneNode.GroundCollisionFrame | src/Object3D.cpp:216-230 | With dt >= 0, a node at height -1 falling at 5 without vertical thrust ends at height 0. Its vertical velocity ends at 2.5 - 2.5·dt. |
| SceneNode.GravityFrame | src/Object3D.cpp:209-230 | A resting gravity-affected node at height 10, ticked with dt = 1, stays at height 10 with vertical velocity -11.31. |
| SceneNode.DecelerationOvershoots | src/Object3D.cpp:222-230 | Deceleration is not clamped: a velocity of 1 becomes -1.5 after a frame of dt = 1. |
| SceneNode.DecelerationSlows | src/Object3D.cpp:222-230 | A speed of at least 2.5·dt keeps its direction and loses exactly 2.5·dt. |
| SceneNode.RenderRecursive | src/Object3D.cpp:246-262 | There is one draw per node of the subtree. The first draw is the node's, with model matrix parent × local and the node's shininess and meshes. |
| SceneNode.RenderForest | src/Object3D.cpp:259-261 | A child list gives one draw per node of its subtrees. The first child is drawn first, from the parent's matrix times its own local matrix. |
| SceneNode.Render | src/Object3D.cpp:237-240 | Nothing is drawn exactly when the root is hidden. Otherwise every node of the subtree is drawn once, the root's matrix being identity × local. |
| SceneNode.RenderFollowsPaths | src/Object3D.cpp:246-262 | The i-th draw belongs to the i-th node in pre-order. Its matrix is the product, from the parent down, of the local matrices on the path from the root to that node. |
| SceneNode.RenderForestFollowsPaths | src/Object3D.cpp:259-261 | The same fact holds for a list of children drawn from one parent matrix, one subtree after another. |
| SceneNode.RenderRootIsLocal | src/Object3D.cpp:237-248 | When the identity is a left unit of the product, a visible root is drawn with its own local matrix. |
| SceneNode.RenderIgnoresDisplay | src/Object3D.cpp:246-262 | Setting every display flag of a subtree to any value does not change its traversal. |
| SceneNode.RenderOnlyRootDisplay | src/Object3D.cpp:237-240 | `render` consults only the root's flag. Hiding all descendants changes nothing. |
| Animations.NewTranslation | include/TranslationAnimation.h:25-26 | The rate times the duration is the total movement, for a non-zero duration. |
| Animations.NewBezierTranslation | include/BezierTranslationAnimation.h:48-49 | The four control points and the duration are stored exactly as given. |
| Animations.NewPause | include/PauseAnimation.h:27-28 | A pause holds nothing but its duration. |
| Animations.Apply | include/BezierTranslationAnimation.h:16-43 | A Bezier step writes only the position: it puts the target at the curve point for t = elapsed time / duration, whatever the frame time. (For the other kinds, which share this dispatcher, a translation step moves the target by rate × dt and a pause step returns it unchanged.) |
| Animations.BezierAxis | include/BezierTranslationAnimation.h:17-30 | One coordinate of the curve, computed with the program's intermediate powers, equals de Casteljau's construction on that coordinate for every t. It is the start value at t = 0 and the end value at t = 1. |
| Animations.BezierPoint | include/BezierTranslationAnimation.h:17-40 | Each coordinate of the curve point is de Casteljau's construction on that coordinate. The point is the start point at t = 0 and the end point at t = 1, and it is the common point when all four control points coincide. |
| Animations.BezierIsDeCasteljau | include/BezierTranslationAnimation.h:17-40 | At every parameter, the program's power form (1-t)³S + 3(1-t)²tM1 + 3(1-t)t²M2 + t³E equals de Casteljau's three rounds of linear interpolation. |
| Animations.BezierAxisIsBernstein | include/BezierTranslationAnimation.h:17-40 | The intermediate powers the program computes give the cubic Bernstein form. |
| Animations.DeCasteljauIsBernstein | include/BezierTranslationAnimation.h:17-40 | De Casteljau's construction gives the cubic Bernstein form. |
| Animations.BezierAtZero | include/BezierTranslationAnimation.h:27-40 | At t = 0 the curve point is exactly the start point. |
| Animations.BezierAtOne | include/BezierTranslationAnimation.h:27-40 | At t = 1 the curve point is exactly the end point. |
| Animations.WeightsSumToOne | include/BezierTranslationAnimation.h:27-40 | The four Bernstein weights sum to 1 for every t. |
| Animations.BezierConstant | include/BezierTranslationAnimation.h:27-40 | If all four control points coincide, the curve is that point for every t. |
| Animations.BezierStepAtStart | include/BezierTranslationAnimation.h:16-42 | At elapsed time 0 a Bezier step places the target on the start point. |
| Animations.BezierStepAtEnd | include/BezierTranslationAnimation.h:16-42 | At elapsed time equal to the duration a Bezier step places the target on the end point. |
| Animations.BezierStepIsAbsolute | include/BezierTranslationAnimation.h:16-42 | The target's previous position and the frame time make no difference to where a Bezier step places it. |
| Animations.TranslationIgnoresElapsedTime | include/TranslationAnimation.h:16-18 | A translation step does not depend on the animation's elapsed time. |
| Animations.TranslationSteps | include/TranslationAnimation.h:16-18 | Over any list of frames a translation moves the target by rate × the total time. No other field changes. |
| Animations.TranslationCompletes | include/TranslationAnimation.h:16-26 | Frames whose times add up to the duration move the target by exactly the total movement the animation was built with. |
| Animations.PauseIgnoresFrameTime | include/PauseAnimation.h:17-20 | A pause step does not depend on dt. |
| Animations.PauseSteps | include/PauseAnimation.h:17-20 | Any list of pause steps leaves the target unchanged. |
| Animations.NewAnimator | include/Animator.h:40-45 | A new sequencer has time 0 and next transition 0. It has no builders, no active animation, and index -1, below every valid position. |
| Animations.AddAnimation | include/Animator.h:50-52 | Adding a builder appends exactly it at the end and keeps the earlier builders in order. Time, next transition, active animation and index are untouched. |
| Animations.AddAllAppends | include/Animator.h:50-52 | Adding several builders one by one appends them in order and changes nothing else. |
| Animations.BuiltAnimator | include/Animator.h:40-52 | A new sequencer with builders added holds exactly those builders. It still has no active animation and index -1. |
| Vectors.Lerp | include/Camera.h:12-14 | Lerp(a, 0, b) = a and Lerp(a, 1, b) = b. In general the result is a + t(b - a), and equal endpoints give that point. |
| Vectors.Lerp3 | include/Camera.h:16-22 | The vector interpolation is Lerp on each component, with the same endpoint facts. |
| CameraModel.NewCamera | include/Camera.h:53-65 | A new camera has the given position, up, yaw and pitch, and front and right recomputed from them. It is focused and not targeting. Zoom is 45, speed 2.5 and sensitivity 0.1. Both rebuilds are requested and no matrix is built yet. |
| CameraModel.DefaultCamera | include/Camera.h:53-65 | The default arguments put the camera at (0,0,3) with up (0,1,0), yaw -90 and pitch 0. |
| CameraModel.KeyboardDelta | include/Camera.h:69-78 | Let v = moveSpeed · dt. The keyboard displacement is the sum of three terms: front scaled by dir.x · v, right scaled by dir.z · v, and up scaled by dir.y · v. Front and right each lose their vertical component; up keeps all three (`KeyboardForm`). So the vertical part is up.y · dir.y · moveSpeed · dt, and without vertical input the camera never climbs or sinks, whatever the pitch of front. No input, or dt = 0, gives no displacement. |
| CameraModel.KeyboardFormZero | include/Camera.h:69-78 | The keyboard form is the zero vector when the input is zero or the speed times dt is zero. |
| CameraModel.ProcessKeyboard | include/Camera.h:67-90 | A zero displacement changes nothing. While targeting, only the hover point moves. Otherwise the position moves and the hover point becomes the new position. Any movement requests a view rebuild, and no other field changes. |
| CameraModel.KeyboardWhileTargetingKeepsPosition | include/Camera.h:80-89 | A targeting camera keeps its position and stays targeting under keyboard input. |
| CameraModel.ClampPitch | include/Camera.h:101-108 | The result lies in [-89, 89]. A pitch already inside is kept, and a pitch outside goes to the nearer bound. |
| CameraModel.ProcessMouseMove | include/Camera.h:92-113 | A zero offset changes nothing, and a non-zero one always requests a view rebuild. The camera turns only when focused and not targeting: yaw and pitch move by offset × sensitivity, pitch is clamped when limitPitch is set, and front and right are recomputed. Otherwise only the view flag changes. |
| CameraModel.MouseMoveKeepsPitchLimit | include/Camera.h:92-113 | With pitch limiting on, a pitch inside [-89, 89] stays inside. |
| CameraModel.ClampZoom | include/Camera.h:117-123 | The result lies in [1, 45]. A zoom inside is kept, and a zoom outside goes to the nearer bound. |
| CameraModel.ProcessMouseScroll | include/Camera.h:115-127 | A zero offset changes nothing. Otherwise the zoom becomes clamp(zoom - yOff, 1, 45), which lies in [1, 45], and a perspective rebuild is requested. No other field changes. |
| CameraModel.ScrollInverse | include/Camera.h:115-127 | Scrolling by an amount and back restores the zoom when neither scroll reaches a limit. |
| CameraModel.SetFront | include/Camera.h:129-133 | Front is replaced and a view rebuild is requested. Nothing else changes. |
| CameraModel.SetTarget | include/Camera.h:135-142 | Targeting is set, the target stored, zoom reset to 45 and both rebuilds requested. Nothing else changes. |
| CameraModel.DropTarget | include/Camera.h:144-148 | Only the targeting flag is cleared and a view rebuild requested. The target point is kept. |
| CameraModel.SetThenDropTarget | include/Camera.h:135-148 | Setting and then dropping a target restores the camera apart from zoom, target and dirty flags. |
| CameraModel.ToggleFocus | include/Camera.h:150-152 | Focus is flipped and nothing else changes. |
| CameraModel.ToggleFocusInvolution | include/Camera.h:150-152 | Toggling focus twice restores the camera. |
| CameraModel.NextLerp | include/Camera.h:161-183 | While targeting below 1, the weight rises by dt, capped at 1. Otherwise while above 0, it falls by dt, floored at 0. At the bound it stays. A view is requested exactly when the bound is not reached. From [0, 1] with dt >= 0 it stays in [0, 1]. |
| CameraModel.ViewGuardAlwaysHolds | include/Camera.h:186-190 | The guard before the view rebuild holds for every flag and every weight. |
| CameraModel.ViewOf | include/Camera.h:214-219 | At weight 0 the view looks from the position along front. At weight 1 it looks from the hover point at the target. Up is always the camera's up. |
| CameraModel.Update | include/Camera.h:161-197 | The weight takes one step. The view is rebuilt from the new state on every frame, and both dirty flags are clear afterwards. The perspective is rebuilt from zoom, window size, 0.1 and 100 exactly when requested. Nothing else changes. |
| CameraModel.UpdateKeepsLerpInRange | include/Camera.h:161-183 | With dt >= 0 a weight in [0, 1] stays in [0, 1]. |
| CameraModel.UpdateTimesLerp | include/Camera.h:161-183 | After k frames the camera's weight is k steps of the weight on its own. |
| CameraModel.TargetingLerpTimes | include/Camera.h:162-171 | While targeting, k steps give min(1, t + k·dt). |
| CameraModel.FreeLerpTimes | include/Camera.h:173-182 | While not targeting, k steps give max(0, t - k·dt). |
| CameraModel.TargetingLerpAfter | include/Camera.h:161-183 | While targeting, k frames raise the camera's weight to min(1, t + k·dt). |
| CameraModel.FreeLerpAfter | include/Camera.h:161-183 | Without a target, k frames lower the camera's weight to max(0, t - k·dt). |
| CameraModel.UpdateTimesView | include/Camera.h:186-190 | After at least one frame, the cached view always matches the camera's current state. |
| CameraModel.TargetingSettles | include/Camera.h:161-219 | While targeting, frames totalling at least 1 - t bring the weight to 1. The view then looks from the hover point at the target. |
| TreePrint.Connector | src/Scene.cpp:323-327 | An empty prefix gets no connector. Otherwise a last child gets "└── " and any other child "├── ". |
| TreePrint.ChildPrefix | src/Scene.cpp:332 | The children's prefix extends the node's prefix by four characters. |
| TreePrint.PrintTree | src/Scene.cpp:321-338 | There is one line per node of the subtree, numbered consecutively from the counter, and the counter comes back increased by the subtree's size. The first line is the node's, with its prefix and connector. Every line extends the prefix, and every later line is indented further and has a connector. |
| TreePrint.PrintChildren | src/Scene.cpp:333-337 | The line count equals their total size and the lines are numbered consecutively. All lines extend the shared prefix. |
| TreePrint.ChildHeadLine | src/Scene.cpp:334-337 | Child i's subtree starts after all nodes of its earlier siblings. Its first line has the shared prefix, the next number, and the last-child connector exactly for the final child. |
| TreePrint.OnlyFinalChildIsLast | src/Scene.cpp:334-337 | In a child list, the line of child i carries "└── " exactly when i is the final child, and "├── " otherwise. |
| TreePrint.PrintTreeFollowsFlags | src/Scene.cpp:321-338 | Every line of a subtree's listing is fixed, at every depth. The flag paths are built in pre-order, one per node of the subtree. Line i is given by flag path i and carries number counter + i. Its prefix is the given prefix followed by one indent for each node above it on its path: "    " under a final child and "│   " under any other. Its connector is the one its own last-flag picks. |
| TreePrint.PrintChildrenFollowsFlags | src/Scene.cpp:333-337 | The listing of a child list is each child's own listing, in order. Each line is fixed by the same rule, with the final child's subtree flagged last. |
| TreePrint.ChildLine | src/Scene.cpp:332-337 | The line of a node's i-th child follows the node's line and the earlier subtrees. Its prefix is the node's prefix plus "    " (last node) or "│   " (otherwise). It is marked last exactly for the final child. |
| TreePrint.DigitsRoundTrip | src/Scene.cpp:329 | Reading back the decimal digits written for a number gives that number. |
| TreePrint.Decimal | src/Scene.cpp:329 | A non-negative number is written as its digits, and a negative one as a minus sign followed by the digits of its magnitude. |
| TreePrint.Text | src/Scene.cpp:323-329 | A line's text is its prefix, then its connector, then its number. |
| TreePrint.PrintHierarchy | src/Scene.cpp:341-344 | There is one string per node, and the root's line is exactly "1". |
| TreePrint.HierarchyNumbering | src/Scene.cpp:341-344 | Line j carries number j + 1, and every line but the root's is indented at least four characters. |

## Left out

- `buildModelMatrix` (src/Object3D.cpp:5-15) is not modelled. It builds a glm matrix from three translations (by the position, by the centre times the scale, and by minus the centre after the scale), three rotations by angles (trigonometry), a scale and a final product with the base transform. The traversal takes the local matrix as an abstract function `local` of the fields it reads, and the products at src/Object3D.cpp:13 and src/Object3D.cpp:248 as the parameter `mul`.
- `updateForward` (src/Object3D.cpp:180-188) is trigonometry and is not called by `tick`.
- `Camera::UpdateVectors` is not modelled: it is trigonometry and normalisation, passed in as the parameter `basis`.
- `Camera::UpdateView` and `Camera::UpdatePerspective` do not build matrices here. The model records the arguments of `glm::lookAt` and `glm::perspective`.
  - The field of view is kept in degrees.
  - The aspect ratio is kept as the window width and height, so a zero height raises no question here.
- Floating-point rounding, infinities and NaN are not modelled. Every quantity is an exact real. In particular the constants 9.81 and 0.1 are exact, and the float-to-double casts in the perspective are not modelled.
- Getters and the remaining setters of `Object3D` (setOrientation, setScale, setVelocity and so on) are not modelled. Each assigns one field, the same as `SetPosition`.
- Meshes, textures, shaders and framebuffers (Assimp import, `Mesh3D`, `ShaderProgram`, OpenGL calls) are left out. A mesh is an opaque handle, and a draw call is a record of the model matrix, the shininess and the meshes.
- `Animator::start`, `Animator::tick`, `nextAnimation`, the `Animation` base class and `RotationAnimation` are not modelled: the `Animation` base class, `Animator.cpp` and `RotationAnimation` lie outside the modelled core. So the elapsed time of an animation is an explicit input of its step. The sequencer model covers only construction and `addAnimation`, and the builders are an arbitrary type `F`.
- TreePrint.PrintTree: the counter is an unbounded integer, so the 32-bit `int` overflow after 2^31 - 1 nodes is not modelled.
- TreePrint.PrintTree: the lines are returned, not written to the console. Each line's text is `Text`, and the end-of-line characters are not part of it.
- TreePrint.ChildHeadLine: states only the first line of each child's block. The whole block is not equated with the child's own listing as a sequence slice, because such slice equalities over the recursive printer run out of resource. The content of every line is stated index by index instead, by `TreePrint.PrintTreeFollowsFlags` and `TreePrint.PrintChildrenFollowsFlags`.
- TreePrint.PrintChildren: its own contract states the line count, the numbering and the shared prefix. That each line is the child's own listing, in order, is stated by `TreePrint.PrintChildrenFollowsFlags`.
- TreePrint.PrintTree: its own contract fixes the exact prefix and connector of the first line only, and ChildLine fixes them for the direct children. Lines at every depth are fixed by `TreePrint.PrintTreeFollowsFlags`.
- CameraModel.NewCamera: the program leaves the interpolation weight, the hover point and the target uninitialised. They are parameters here.
- CameraModel.ProcessKeyboard: requires each direction component to lie in [-1, 1], as the comment at include/Camera.h:68 demands of callers.
- Strings are sequences of Unicode characters, so lengths are counted in characters. The program's `std::string` holds UTF-8 bytes, so "│   " is 6 bytes and "└── " is 10. Nothing depends on this, because src/Scene.cpp:325 only tests whether the prefix is empty.
- The scene builders, lighting uniforms and the window and event loop are not modelled: they are asset loading and OpenGL calls.

# Keyframe, skinning and particle animation of a scene

This project models the animation loop of a small graphics framework: `src/animation.cpp`.
Once per tick, `animate_update` advances (or wraps, or freezes) the scene clock. It then runs three passes in a fixed order:

1. `animate_frame` moves every animated mesh and surface to the frame its keyframe track gives at the current tick (`animate_compute_frame`).
2. `animate_skin` deforms every skinned mesh by linear blend skinning over four bone slots per vertex, unless skinning runs on the GPU.
3. `simulate` advances every mass-spring mesh by `simsteps` sub-steps. Each sub-step runs:
   - a gravity pass;
   - a spring pass (static plus damping force, equal and opposite on the two ends);
   - an explicit integration pass for unpinned particles;
   - a collision pass against the scene's sphere and quad surfaces, with separate damping of the tangential and normal parts of the velocity;
   - a smoothing of the normals when the mesh has faces.

`animate_reset` puts the clock back to tick 0 and every mesh back to its rest frame, rest skin or initial particles.

The model has the same shape as the code:

- `vec_math.dfy` holds the vectors and frames, and the vector-math library the code calls, passed in as the record `VMath`.
- `keyframe.dfy`, `skinning.dfy` and `particles.dfy` are specifications of the three passes (plus, in `keyframe.dfy`, the interval scan as a loop and `animate_compute_frame` as a method proved against them), one entity or one particle step at a time, with the properties proved about them.
- `mesh.dfy` holds the classes `Simulation`, `Mesh` and `Surface`. Their fields change in place, and each in-place method is proved to produce the state its specification function gives.
- `animation.dfy` holds the class `Scene`, whose methods are the five scene-level functions of the source. Each states every mesh's and surface's new state as a step function of its old state.

Floating-point arithmetic is modelled by exact real arithmetic.

## Model

| member | source | states |
|---|---|---|
| Keyframe.Passed | src/animation.cpp:7-8 | the count reached by the keytime scan: at most the number of keytimes, every keytime counted is at or before `time`, and the first keytime not counted (if any) is after `time` |
| Keyframe.ScanInterval | src/animation.cpp:7-9 | the scan loop returns the count minus one. The result is -1 exactly when the track is empty or `time` precedes the first keytime. For at least two keytimes and `time` in [first, last), it is a valid interval index with `keytimes[i] <= time < keytimes[i+1]`, whatever the order of the keytimes |
| Keyframe.Interval | src/animation.cpp:7-9 | for a tick at which the scan stops after the first keytime and before the last, with poses up to the next keyframe (`TrackReady`), the interval index lies in `0 .. |keytimes|-2` and brackets the tick |
| Keyframe.ComputeFrame | src/animation.cpp:5-20 | the returned frame is the rest frame transformed by translation * rotZ * rotY * rotX of the pose interpolated at `time` (`FrameAt`) |
| Keyframe.PassedAtKeytime | src/animation.cpp:7-9 | at a keytime of a strictly increasing track, the scan stops just after that keytime |
| Keyframe.FractionInUnit | src/animation.cpp:11 | the blend fraction lies in [0, 1) |
| Keyframe.PoseAtKeytime | src/animation.cpp:11-15 | on a strictly increasing track, querying exactly at a keytime (other than the last) reproduces that keyframe's translation and Euler angles |
| Keyframe.LerpBetween | src/animation.cpp:12-15 | `a*(1-t) + b*t` lies between `a` and `b` for `t` in [0, 1] |
| Keyframe.PoseBetweenKeys | src/animation.cpp:11-15 | every interpolated translation and angle component lies between the values of the two bracketing keyframes |
| Keyframe.MidpointExample | src/animation.cpp:11-12 | a track from (0,0,0) at tick 0 to (2,0,0) at tick 2 is at (1,0,0) at tick 1 |
| Keyframe.InRangeIsReady | src/animation.cpp:7-9 | on a track with a pose per keytime, every tick in [first keytime, last keytime) can be queried, in any keytime order |
| Keyframe.BeyondLastKeytimeExample | src/animation.cpp:7-11 | an unordered track can also be queried outside [first, last): in [0, 10, 5], tick 7 falls in interval 0 at fraction 0.7 |
| Keyframe.UnorderedTrackExample | src/animation.cpp:7-11 | the keytimes need not be ordered: in the track [0, 5, 3, 10], tick 4 falls in interval 0 at fraction 0.8 |
| Keyframe.Fraction | src/animation.cpp:11 | the blend fraction `(time - keytimes[i]) / (keytimes[i+1] - keytimes[i])` of the bracketing interval. `FractionInUnit` proves it lies in [0, 1) |
| Keyframe.PoseAt | src/animation.cpp:11-15 | the interpolated pose: translation and each Euler angle blended independently between the bracketing keyframes. `PoseAtKeytime`, `PoseBetweenKeys` and the two examples state its properties |
| Keyframe.PoseMatrix | src/animation.cpp:12-17 | the pose's matrix, composed as translation * rotZ * rotY * rotX |
| Keyframe.FrameAt | src/animation.cpp:19 | the rest frame transformed by the pose matrix at `time`. `ComputeFrame` is proved to return it |
| Skinning.BlendIgnoresUnusedSlots | src/animation.cpp:58-70 | slots with a negative bone id contribute nothing: two slot tables that agree on their used slots blend to the same vector |
| Skinning.BlendNoBones | src/animation.cpp:55-70 | a vertex with no used slot blends to the zero vector |
| Skinning.Blend | src/animation.cpp:55-70 | the weighted sum, over the first `n` slots in order, of each used slot's bone transform applied to the rest value; slots with a negative id are skipped. The three lemmas below state its properties |
| Skinning.BlendSingleIdentityBone | src/animation.cpp:55-70 | a vertex bound, in any one slot, to a single bone with weight 1, whose transform fixes the rest value, keeps its rest value |
| Skinning.SkinnedPos | src/animation.cpp:55-67 | the deformed position of vertex `i`: the blend of its rest position under `transform_point` with the bone transforms of the tick |
| Skinning.SkinnedNorm | src/animation.cpp:56-72 | the deformed normal of vertex `i`: the normalized blend of its rest normal under `transform_normal` |
| Particles.GravityForces | src/animation.cpp:89-91 | the force accumulator after the gravity pass: one entry `gravity * mass[j]` per particle. `GravityTotal` sums it |
| Particles.SpringForce | src/animation.cpp:95-101 | a spring's static force `ks * (length - rest_length)` plus damping force `kd * dot(relative velocity, dir)`, both along the unit direction from `ids[0]` to `ids[1]` |
| Particles.ApplySprings | src/animation.cpp:93-106 | the spring pass in spring order, keeping the accumulator's length: each spring adds its force to `ids[0]` and the negation to `ids[1]`. `SpringsKeepTotal` proves the total unchanged |
| Particles.Integrate | src/animation.cpp:112-115 | one explicit integration step. `IntegrateUsesNewVelocity` states it in closed form |
| Particles.Bounce | src/animation.cpp:150-153 | the velocity after a hit, with tangential and normal parts damped separately. `BounceSplitsVelocity` states what each part becomes |
| Particles.Collide | src/animation.cpp:120-155 | one collider's test and response: a quad hit projects onto the quad's plane and a sphere hit onto the sphere, then the velocity bounces; a miss keeps both. `SphereContact` and `QuadContact` state where a hit ends |
| Particles.CollideAll | src/animation.cpp:119-156 | the colliders tested in scene order, each on the result of the previous ones. `CollideAllConcat` and `CollideAllMisses` state its properties |
| Particles.MoveParticle | src/animation.cpp:108-156 | a pinned particle is left alone; any other is integrated and then collided. `PinnedStays` states the pinned case |
| Particles.SubStepForces | src/animation.cpp:88-106 | the accumulator after the gravity and spring passes, one entry per particle. `SubStepNetForce` sums it |
| Particles.MoveAll | src/animation.cpp:108-157 | the integration and collision pass over every particle, one result per particle |
| Particles.GravityTotal | src/animation.cpp:89-91 | after the gravity pass the forces sum to gravity times the total mass |
| Particles.SpringsKeepTotal | src/animation.cpp:93-106 | the spring pass adds equal and opposite forces, so it leaves the sum of forces unchanged |
| Particles.SubStepNetForce | src/animation.cpp:88-106 | the forces a sub-step leaves in the accumulator sum to gravity times the mesh's total mass |
| Particles.SubStepIgnoresOldForces | src/animation.cpp:89-91 | a sub-step's result does not depend on the forces left in the accumulator by the previous one |
| Particles.SubStep | src/animation.cpp:88-157 | a sub-step keeps every per-particle array the same length and every spring in range |
| Particles.Simulated | src/animation.cpp:87-160 | any number of sub-steps keeps the particle arrays and springs consistent |
| Particles.PinnedStays | src/animation.cpp:108-110 | a pinned particle keeps its position and velocity over any number of sub-steps, collisions included |
| Particles.CollideAllConcat | src/animation.cpp:119-156 | colliders are tested in scene order, each on the result of the previous ones: testing two runs in turn equals testing their concatenation |
| Particles.CollideAllMisses | src/animation.cpp:119-156 | a particle inside no collider keeps its position and velocity |
| Particles.SphereContact | src/animation.cpp:138-143 | a particle strictly inside a sphere is moved to `radius` times the unit direction from the centre, so it lies at distance `radius` whenever `length` and `normalize` agree |
| Particles.QuadContact | src/animation.cpp:122-134 | a particle strictly inside a quad is moved onto the quad's plane at the same local x and y, and is then no longer inside when the frame's point maps are inverse |
| Particles.BounceSplitsVelocity | src/animation.cpp:148-155 | for a unit normal, the normal part of the velocity becomes `-(1 - bounce_dump[1])` times the old one and the tangential part `(1 - bounce_dump[0])` times the old one |
| Particles.IntegrateUsesNewVelocity | src/animation.cpp:112-115 | the integration step moves a particle by `v*h + 3/2*a*h*h` (`v` the velocity before the step, `a = force/mass`) and sets its velocity to `v + a*h` |
| Particles.FallFromRest | src/animation.cpp:85-115 | a free unit mass at rest under gravity (0,-9.8,0), dt 1, one sub-step, ends at velocity (0,-9.8,0) and position (0,-14.7,0) |
| Meshes.Resize | src/animation.cpp:178 | `force.resize(n)` yields length `n`, keeps the first entries and pads with zero vectors |
| Meshes.FrameStep | src/animation.cpp:26-32 | the frame pass of one mesh changes only its frame: positions, normals, velocities and forces are kept, and a mesh without a track is unchanged |
| Meshes.SurfaceFrameStep | src/animation.cpp:34-42 | the frame pass of one surface: an animated surface takes its track's frame and a display mesh rebuilt from that frame |
| Meshes.SkinStep | src/animation.cpp:49-74 | the skinning pass of one mesh keeps its frame, velocities, forces and array lengths, and the normals past the skinned vertices |
| Meshes.SimStep | src/animation.cpp:81-160 | the simulation pass of one mesh keeps its frame and particle count, leaves the particle arrays and springs consistent, and keeps the normals of a mesh without faces |
| Meshes.ResetStep | src/animation.cpp:167-179 | the reset of one mesh: rest frame, rest skin and initial particles, each when present. `ResetIdempotent` proves a second reset changes nothing |
| Meshes.ResetIdempotent | src/animation.cpp:165-181 | resetting a mesh twice leaves it as resetting it once |
| Meshes.Simulation.ResetForces | src/animation.cpp:89-91 | every force entry becomes `gravity * mass[j]` (`GravityForces`); velocities unchanged |
| Meshes.Simulation.AddSpringForce | src/animation.cpp:94-105 | one spring adds its static plus damping force to particle `ids[0]` and the opposite to `ids[1]` |
| Meshes.Simulation.AccumulateSprings | src/animation.cpp:93-106 | the spring loop leaves the accumulator at `ApplySprings` of its old value; velocities unchanged |
| Meshes.Mesh.Skin | src/animation.cpp:51-73 | the mesh state becomes `SkinStep`: each position the blended rest position and each normal the normalized blended rest normal |
| Meshes.Mesh.IntegrateParticle | src/animation.cpp:112-115 | particle `j` gets the velocity and position of `Integrate`; every other particle, the frame, the normals and the forces are unchanged |
| Meshes.Mesh.CollideParticle | src/animation.cpp:117-156 | particle `j` gets the position and velocity of `CollideAll` over the colliders in order; nothing else changes |
| Meshes.Mesh.CollideWith | src/animation.cpp:120-155 | particle `j` gets the position and velocity of `Collide` against one collider: projected and bounced on a hit, unchanged otherwise |
| Meshes.Mesh.MoveParticles | src/animation.cpp:108-157 | each particle gets `MoveParticle` of its old position and velocity: unchanged if pinned, otherwise integrated and collided |
| Meshes.Mesh.SubStep | src/animation.cpp:88-159 | particle state becomes `Particles.SubStep` of the old one; normals become the smoothed normals of the new positions when the mesh has faces |
| Meshes.Mesh.Simulate | src/animation.cpp:83-160 | the mesh state becomes `SimStep`: `simsteps` sub-steps (none if not positive), then the normals of a mesh with faces re-smoothed |
| Meshes.Mesh.Reset | src/animation.cpp:167-179 | the mesh state becomes `ResetStep`: rest frame, then rest skin, then initial particles with the force buffer resized, each when present |
| Animation.NextTime | src/animation.cpp:185-188 | the tick after an update stays in [0, length) when it starts there, and always does for a looping scene. The tick stays put exactly when the last tick is reached and the scene does not loop (or is already at 0) |
| Animation.LoopingPlaybackCycles | src/animation.cpp:185-188 | a looping scene started at tick 0 is at tick `n mod length` after `n` updates |
| Animation.PlaybackStopsAtEnd | src/animation.cpp:185-188 | a non-looping scene started at tick 0 advances one tick per update and then stays on its last tick |
| Animation.MeshTick | src/animation.cpp:189-191 | one mesh's tick: frame, skin unless on the GPU, then simulation. It keeps the particle count and leaves the particles consistent for the next tick |
| Animation.Scene.AnimateFrame | src/animation.cpp:23-43 | every mesh's state becomes `FrameStep` and every surface's `SurfaceFrameStep` at the current tick |
| Animation.Scene.FrameMeshes | src/animation.cpp:26-32 | every animated mesh takes the frame of its track; other meshes unchanged |
| Animation.Scene.FrameSurfaces | src/animation.cpp:34-42 | every animated surface takes the frame of its track and a display mesh rebuilt from it; others unchanged |
| Animation.Scene.AnimateSkin | src/animation.cpp:46-75 | every mesh's state becomes `SkinStep` at the current tick |
| Animation.Scene.Simulate | src/animation.cpp:78-162 | every mesh's state becomes `SimStep` against the scene's surfaces as colliders |
| Animation.Scene.Reset | src/animation.cpp:165-181 | the tick becomes 0, every mesh's state becomes `ResetStep`, and surfaces are unchanged |
| Animation.Scene.Update | src/animation.cpp:184-192 | a finished non-looping scene is left entirely unchanged. Otherwise the tick becomes `NextTime`, every surface takes its frame step, and every mesh's state becomes frame, then skin (unless on the GPU), then simulation, applied to its old state (reset first when the scene wraps) |

## Left out

- Floating point: all arithmetic is exact real arithmetic. Rounding, overflow, NaN and infinities are not modelled.
- `length`, `normalize`, matrix construction, products and application, and local/world point maps are foreign to the core. They are parameters (`VMath`), and every property that depends on them states its assumption about them explicitly.
- `smooth_normals` and `make_surface_mesh` (tesselation.h) are parameters (`Tesselation`). The surface material passed to `make_surface_mesh` is not modelled, because it is never changed here.
- Undefined behaviour and exceptions become preconditions:
  - a keyframe query at which the scan passes no keytime or every keytime, or that needs a pose past the end of the pose arrays; both read outside the track (`TrackReady`, which admits exactly the other ticks). `PoseAtKeytime` and `InRangeIsReady` instead assume a translation and a rotation for every keytime (`WellFormed`), though the source reads poses only up to the interval it finds plus one;
  - a `bone_weights.at`, `bone_ids.at` or `bone_xforms.at` that would throw, and bone slots beyond a vertex's tables (`Skinning.Ready`);
  - springs naming missing particles, per-particle arrays of different lengths, and zero mass of an unpinned particle (`Particles.Fits`).
- `Particles.StepSize`: when `simsteps` is not positive, the source divides by it but never uses the result. The model uses 0 there.
- `Meshes.Resize`: new force entries are zero vectors. This is `vec3f`'s value-initialisation, which is not part of this model.
- Aliasing: `Scene.Valid` requires that no mesh, simulation or surface appears twice in the scene. Meshes sharing a simulation are not modelled.
- `Scene.Simulate` reads the colliders once, as values, before the mesh loop. The source re-reads the surfaces inside the loop, which is the same because `simulate` does not change them.
- Mesh loops of the scene-level passes: a mesh's skinning and simulation are written as methods of `Mesh` that the scene calls per mesh. The statements are the same as the source's nested loops.
- Materials, rendering, scene loading and GPU skinning itself are outside the animation core. With `gpu_skinning` set, the skinning pass is simply skipped.

Behaviour of `src/animation.cpp` worth knowing:

- The spring pass adds the spring force to particle `ids[0]` and its negation to `ids[1]`.
- In the velocity update after a collision, `bounce_dump[0]` damps the tangential part and `bounce_dump[1]` the normal part.
- The position update uses the velocity already advanced in the same step (src/animation.cpp:114-115). A unit mass falling from rest for one step of 1 under gravity 9.8 therefore ends at y = -14.7, where a constant-acceleration step would give -4.9 (`Particles.FallFromRest`, `Particles.IntegrateUsesNewVelocity`).
- The integration step divides by the particle's mass without checking it; the model requires a non-zero mass for every unpinned particle.
- The keyframe search reads two keytimes and the poses at the interval it finds without checking the track's size; the model requires a tick at which the scan stops after the first keytime and before the last. The keytimes' order is never checked or needed; on an unordered track such ticks can lie outside [first, last).
- `animate_reset` resets mesh frames only; surfaces keep their frames until the next frame pass.

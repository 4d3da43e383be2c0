/** The scene entities whose fields the animation code updates in place:
    meshes (frame, vertex positions and normals), their particle
    simulations (velocities and forces) and analytic surfaces (frame and
    display mesh).  Each in-place method is proved against a step function
    on the entity's state. */
module Meshes {
  import opened VecMath
  import opened Wrappers
  import Keyframe
  import Skinning
  import Particles

  type Triangle = (int, int, int)
  type Quad = (int, int, int, int)

  /** The display geometry the tesselation library builds for a surface. */
  datatype SurfaceMesh = SurfaceMesh(pos: seq<Vec3>, norm: seq<Vec3>, triangles: seq<Triangle>, quads: seq<Quad>)

  /** The tesselation library, foreign to the animation code:
      - smoothNormals: per-vertex normals of a mesh from its positions and faces;
      - makeSurfaceMesh: the display mesh of a sphere or quad surface from its
        frame, radius and kind. */
  datatype Tesselation = Tesselation(
    smoothNormals: (seq<Vec3>, seq<Triangle>, seq<Quad>) -> seq<Vec3>,
    makeSurfaceMesh: (Frame3, real, bool) -> SurfaceMesh)

  /** Everything about a mesh that the animation code changes. `vel` and
      `force` are the simulation's, and empty for a mesh without one. */
  datatype MeshState = MeshState(frame: Frame3, pos: seq<Vec3>, norm: seq<Vec3>,
                                 vel: seq<Vec3>, force: seq<Vec3>)

  /** `std::vector::resize` on a force buffer: keep the first `n` entries,
      or pad with zero vectors up to `n`. */
  function Resize(s: seq<Vec3>, n: nat): (r: seq<Vec3>)
    ensures |r| == n
    ensures forall i :: 0 <= i < n && i < |s| ==> r[i] == s[i]
    ensures forall i :: |s| <= i < n ==> r[i] == Zero
  {
    if n <= |s| then s[..n] else s + seq(n - |s|, _ => Zero)
  }

  /** A particle simulation attached to a mesh: masses, pins, springs and
      initial state are fixed; velocities and forces are updated in place. */
  class Simulation {
    const mass: seq<real>
    const pinned: seq<bool>
    const springs: seq<Particles.Spring>
    const initPos: seq<Vec3>
    const initVel: seq<Vec3>
    var vel: seq<Vec3>
    var force: seq<Vec3>

    constructor (mass: seq<real>, pinned: seq<bool>, springs: seq<Particles.Spring>,
                 initPos: seq<Vec3>, initVel: seq<Vec3>)
      ensures this.mass == mass && this.pinned == pinned && this.springs == springs
      ensures this.initPos == initPos && this.initVel == initVel
      ensures vel == initVel && force == Resize([], |initPos|)
    {
      this.mass, this.pinned, this.springs := mass, pinned, springs;
      this.initPos, this.initVel := initPos, initVel;
      vel := initVel;
      force := Resize([], |initPos|);
    }

    function Body(): Particles.Body {
      Particles.Body(mass, pinned, springs)
    }

    /** The gravity pass: every force entry becomes `gravity * mass[j]`. */
    method ResetForces(gravity: Vec3)
      requires |force| <= |mass|
      modifies this
      ensures force == Particles.GravityForces(gravity, mass, |old(force)|)
      ensures vel == old(vel)
    {
      var j := 0;
      while j < |force|
        invariant 0 <= j <= |force| == |old(force)|
        invariant forall k :: 0 <= k < j ==> force[k] == Scale(mass[k], gravity)
        invariant vel == old(vel)
      {
        force := force[j := Scale(mass[j], gravity)];
        j := j + 1;
      }
    }

    /** One spring's static and damping force, added to particle `id0` and
        subtracted from particle `id1`. */
    method AddSpringForce(vm: VMath, s: Particles.Spring, pos: seq<Vec3>)
      requires |vel| == |pos| && |force| == |pos| && Particles.SpringFits(s, |pos|)
      modifies this
      ensures vel == old(vel)
      ensures var F := Particles.SpringForce(vm, s, pos, vel);
              force == Particles.AddAt(Particles.AddAt(old(force), s.id0, F), s.id1, Scale(-1.0, F))
    {
      var springLength := vm.length(Sub(pos[s.id1], pos[s.id0]));
      var springDirection := vm.normalize(Sub(pos[s.id1], pos[s.id0]));
      var relativeVelocity := Sub(vel[s.id1], vel[s.id0]);
      var staticForce := Scale(s.ks * (springLength - s.restLength), springDirection);
      var dynamicForce := Scale(s.kd * Dot(relativeVelocity, springDirection), springDirection);
      assert Add(staticForce, dynamicForce) == Particles.SpringForce(vm, s, pos, vel);
      force := force[s.id0 := Add(force[s.id0], Add(staticForce, dynamicForce))];
      force := force[s.id1 := Add(force[s.id1], Scale(-1.0, Add(staticForce, dynamicForce)))];
    }

    /** The spring pass over the mesh positions `pos`, in spring order. */
    method AccumulateSprings(vm: VMath, pos: seq<Vec3>)
      requires |vel| == |pos| && |force| == |pos| && Particles.SpringsFit(springs, |pos|)
      modifies this
      ensures vel == old(vel)
      ensures force == Particles.ApplySprings(vm, springs, pos, vel, old(force))
    {
      for k := 0 to |springs|
        invariant vel == old(vel) && |force| == |pos|
        invariant force == Particles.ApplySprings(vm, springs[..k], pos, vel, old(force))
      {
        Particles.ApplySpringsPrefix(vm, springs, k, pos, vel, old(force));
        AddSpringForce(vm, springs[k], pos);
      }
      assert springs[..|springs|] == springs;
    }
  }

  /** A mesh: its frame, positions and normals change; its faces and the
      animation, skinning and simulation attached to it do not. */
  class Mesh {
    var frame: Frame3
    var pos: seq<Vec3>
    var norm: seq<Vec3>
    const triangles: seq<Triangle>
    const quads: seq<Quad>
    const animation: Option<Keyframe.FrameAnimation>
    const skinning: Option<Skinning.SkinningData>
    const simulation: Simulation?

    constructor (frame: Frame3, pos: seq<Vec3>, norm: seq<Vec3>, triangles: seq<Triangle>, quads: seq<Quad>,
                 animation: Option<Keyframe.FrameAnimation>, skinning: Option<Skinning.SkinningData>,
                 simulation: Simulation?)
      ensures this.frame == frame && this.pos == pos && this.norm == norm
      ensures this.triangles == triangles && this.quads == quads
      ensures this.animation == animation && this.skinning == skinning && this.simulation == simulation
    {
      this.frame, this.pos, this.norm := frame, pos, norm;
      this.triangles, this.quads := triangles, quads;
      this.animation, this.skinning, this.simulation := animation, skinning, simulation;
    }

    ghost function State(): MeshState
      reads this, simulation
    {
      if simulation == null then MeshState(frame, pos, norm, [], [])
      else MeshState(frame, pos, norm, simulation.vel, simulation.force)
    }

    /** Particle state of the simulation, positions being the mesh's. */
    ghost function PState(): Particles.ParticleState
      requires simulation != null
      reads this, simulation
    {
      Particles.ParticleState(pos, simulation.vel, simulation.force)
    }

    /** The mesh has faces whose normals the simulation recomputes. */
    predicate HasTopology() {
      |quads| != 0 || |triangles| != 0
    }

    /** Linear blend skinning of every vertex, written into `pos` and `norm`. */
    method Skin(vm: VMath, time: int)
      requires skinning.Some? ==> Skinning.Ready(skinning.value, |pos|, |norm|, time)
      modifies this
      ensures State() == SkinStep(vm, this, time, old(State()))
    {
      if skinning.None? {
        return;
      }
      var sk := skinning.value;
      ghost var np, nn := |pos|, |norm|;
      for i := 0 to |pos|
        invariant |pos| == np && |norm| == nn && frame == old(frame)
        invariant forall k :: 0 <= k < i ==> pos[k] == Skinning.SkinnedPos(vm, sk, np, nn, time, k)
        invariant forall k :: 0 <= k < i ==> norm[k] == Skinning.SkinnedNorm(vm, sk, np, nn, time, k)
        invariant forall k :: i <= k < np ==> pos[k] == old(pos[k])
        invariant forall k :: i <= k < nn ==> norm[k] == old(norm[k])
      {
        Skinning.ReadySlots(sk, np, nn, time, i);
        var ids, ws, xforms := sk.boneIds[i], sk.boneWeights[i], Skinning.BonesAt(sk, time);
        pos := pos[i := Zero];
        norm := norm[i := Zero];
        for j := 0 to Skinning.BoneSlots
          invariant |pos| == np && |norm| == nn && frame == old(frame)
          invariant pos[i] == Skinning.Blend(vm.transformPoint, ids, ws, xforms, sk.restPos[i], j)
          invariant norm[i] == Skinning.Blend(vm.transformNormal, ids, ws, xforms, sk.restNorm[i], j)
          invariant forall k :: 0 <= k < i ==> pos[k] == Skinning.SkinnedPos(vm, sk, np, nn, time, k)
          invariant forall k :: 0 <= k < i ==> norm[k] == Skinning.SkinnedNorm(vm, sk, np, nn, time, k)
          invariant forall k :: i < k < np ==> pos[k] == old(pos[k])
          invariant forall k :: i < k < nn ==> norm[k] == old(norm[k])
        {
          var w := ws[j];
          var index := ids[j];
          if index < 0 {
            continue;
          }
          var boneXform := xforms[index];
          pos := pos[i := Add(pos[i], Scale(w, vm.transformPoint(boneXform, sk.restPos[i])))];
          norm := norm[i := Add(norm[i], Scale(w, vm.transformNormal(boneXform, sk.restNorm[i])))];
        }
        norm := norm[i := vm.normalize(norm[i])];
      }
    }

    /** Particle `j` tested against every collider in order: on a hit it is
        projected onto the collider and its velocity bounced. */
    method CollideParticle(vm: VMath, cs: seq<Particles.Collider>, bounceDump: (real, real), j: int)
      requires simulation != null && 0 <= j < |pos| && |simulation.vel| == |pos|
      modifies this, simulation
      ensures frame == old(frame) && norm == old(norm) && simulation.force == old(simulation.force)
      ensures var pv := Particles.CollideAll(vm, cs, bounceDump, old(pos[j]), old(simulation.vel[j]));
              pos == old(pos)[j := pv.0] && simulation.vel == old(simulation.vel)[j := pv.1]
    {
      for k := 0 to |cs|
        invariant frame == old(frame) && norm == old(norm) && simulation.force == old(simulation.force)
        invariant |pos| == |old(pos)| && |simulation.vel| == |old(simulation.vel)|
        invariant pos == old(pos)[j := pos[j]] && simulation.vel == old(simulation.vel)[j := simulation.vel[j]]
        invariant (pos[j], simulation.vel[j]) ==
                  Particles.CollideAll(vm, cs[..k], bounceDump, old(pos[j]), old(simulation.vel[j]))
      {
        assert cs[..k + 1][..k] == cs[..k];
        CollideWith(vm, cs[k], bounceDump, j);
      }
      assert cs[..|cs|] == cs;
    }

    /** Particle `j` against one collider: the inside test of a quad (in
        the quad's local coordinates) or of a sphere, and on a hit the
        projection onto the collider and the bounce. */
    method CollideWith(vm: VMath, c: Particles.Collider, bounceDump: (real, real), j: int)
      requires simulation != null && 0 <= j < |pos| && |simulation.vel| == |pos|
      modifies this, simulation
      ensures frame == old(frame) && norm == old(norm) && simulation.force == old(simulation.force)
      ensures var pv := Particles.Collide(vm, c, bounceDump, old(pos[j]), old(simulation.vel[j]));
              pos == old(pos)[j := pv.0] && simulation.vel == old(simulation.vel)[j := pv.1]
    {
      var inside := false;
      var surfaceNorm := Zero;
      if c.isQuad {
        var localPos := vm.framePointInverse(c.frame, pos[j]);
        if localPos.z < 0.0 && localPos.x > -1.0 * c.radius && localPos.x < c.radius &&
           localPos.y > -1.0 * c.radius && localPos.y < c.radius {
          pos := pos[j := vm.framePoint(c.frame, Vec3(localPos.x, localPos.y, 0.0))];
          surfaceNorm := c.frame.z;
          inside := true;
        }
      } else {
        var centerPointDistance := vm.length(Sub(pos[j], c.frame.o));
        if centerPointDistance < c.radius {
          pos := pos[j := Add(Scale(c.radius, vm.normalize(Sub(pos[j], c.frame.o))), c.frame.o)];
          surfaceNorm := vm.normalize(Sub(pos[j], c.frame.o));
          inside := true;
        }
      }
      if inside {
        var v := simulation.vel[j];
        simulation.vel := simulation.vel[j := Add(Scale(1.0 - bounceDump.0, Sub(v, Scale(Dot(surfaceNorm, v), surfaceNorm))),
                                                  Scale(1.0 - bounceDump.1, Scale(-1.0 * Dot(surfaceNorm, v), surfaceNorm)))];
      }
    }

    /** Newton's laws for particle `j` over `timePerStep`: the velocity
        first, then the position from the new velocity. */
    method IntegrateParticle(j: int, timePerStep: real)
      requires simulation != null && 0 <= j < |pos| && |simulation.vel| == |pos|
      requires j < |simulation.force| && j < |simulation.mass| && simulation.mass[j] != 0.0
      modifies this, simulation
      ensures frame == old(frame) && norm == old(norm) && simulation.force == old(simulation.force)
      ensures var pv := Particles.Integrate(timePerStep, simulation.mass[j], simulation.force[j],
                                            old(pos[j]), old(simulation.vel[j]));
              pos == old(pos)[j := pv.0] && simulation.vel == old(simulation.vel)[j := pv.1]
    {
      var particleAcceleration := Div(simulation.force[j], simulation.mass[j]);
      simulation.vel := simulation.vel[j := Add(simulation.vel[j], Scale(timePerStep, particleAcceleration))];
      pos := pos[j := Add(pos[j], Add(Scale(timePerStep, simulation.vel[j]),
                                      Div(Scale(timePerStep * timePerStep, particleAcceleration), 2.0)))];
    }

    /** Every unpinned particle integrated over `timePerStep` with the
        forces of this sub-step, then tested against the colliders. */
    method MoveParticles(vm: VMath, cs: seq<Particles.Collider>, ph: Particles.Physics, timePerStep: real)
      requires simulation != null && Particles.Fits(simulation.Body(), PState())
      requires timePerStep == Particles.StepSize(ph)
      modifies this, simulation
      ensures frame == old(frame) && norm == old(norm) && simulation.force == old(simulation.force)
      ensures |pos| == |old(pos)| && |simulation.vel| == |pos|
      ensures forall j :: 0 <= j < |pos| ==>
                (pos[j], simulation.vel[j]) ==
                Particles.MoveParticle(vm, cs, ph, simulation.pinned[j], simulation.mass[j],
                                       simulation.force[j], old(pos[j]), old(simulation.vel[j]))
    {
      var sim := simulation;
      for j := 0 to |pos|
        invariant frame == old(frame) && norm == old(norm) && sim.force == old(sim.force)
        invariant |pos| == |old(pos)| && |sim.vel| == |pos|
        invariant forall k :: 0 <= k < j ==>
                    (pos[k], sim.vel[k]) ==
                    Particles.MoveParticle(vm, cs, ph, sim.pinned[k], sim.mass[k], sim.force[k],
                                           old(pos[k]), old(sim.vel[k]))
        invariant forall k :: j <= k < |pos| ==> pos[k] == old(pos[k]) && sim.vel[k] == old(sim.vel[k])
      {
        if sim.pinned[j] {
          continue;
        }
        IntegrateParticle(j, timePerStep);
        CollideParticle(vm, cs, ph.bounceDump, j);
      }
    }

    /** One sub-step: gravity, springs, integration with collisions, and
        the normals recomputed when the mesh has faces. */
    method SubStep(vm: VMath, tess: Tesselation, cs: seq<Particles.Collider>, ph: Particles.Physics,
                   timePerStep: real)
      requires simulation != null && Particles.Fits(simulation.Body(), PState())
      requires timePerStep == Particles.StepSize(ph)
      modifies this, simulation
      ensures PState() == Particles.SubStep(vm, cs, ph, simulation.Body(), old(PState()))
      ensures frame == old(frame)
      ensures norm == if HasTopology() then tess.smoothNormals(pos, triangles, quads) else old(norm)
    {
      simulation.ResetForces(ph.gravity);
      simulation.AccumulateSprings(vm, pos);
      assert simulation.force == Particles.SubStepForces(vm, ph, simulation.Body(), old(PState()));
      MoveParticles(vm, cs, ph, timePerStep);
      if |quads| != 0 || |triangles| != 0 {
        norm := tess.smoothNormals(pos, triangles, quads);
      }
      ghost var moved := Particles.MoveAll(vm, cs, ph, simulation.Body(), simulation.force, old(PState()));
      assert pos == seq(|moved|, j requires 0 <= j < |moved| => moved[j].0);
      assert simulation.vel == seq(|moved|, j requires 0 <= j < |moved| => moved[j].1);
    }

    /** `simsteps` sub-steps of `dt / simsteps` each. */
    method Simulate(vm: VMath, tess: Tesselation, cs: seq<Particles.Collider>, ph: Particles.Physics)
      requires SimReady(this, State())
      modifies this, simulation
      ensures State() == SimStep(vm, tess, cs, ph, this, old(State()))
    {
      if simulation == null {
        return;
      }
      var timePerStep := if ph.simsteps > 0 then ph.dt / ph.simsteps as real else 0.0;
      var i := 0;
      while i < ph.simsteps
        invariant 0 <= i <= Particles.SubSteps(ph)
        invariant Particles.Fits(simulation.Body(), PState())
        invariant PState() == Particles.Simulated(vm, cs, ph, simulation.Body(), i, old(PState()))
        invariant frame == old(frame)
        invariant norm == if i > 0 && HasTopology() then tess.smoothNormals(pos, triangles, quads) else old(norm)
      {
        SubStep(vm, tess, cs, ph, timePerStep);
        i := i + 1;
      }
    }

    /** Back to the rest state: the rest frame of the track, the rest
        geometry of the skin, and the initial particles of the simulation,
        in that order. */
    method Reset()
      modifies this, simulation
      ensures State() == ResetStep(this, old(State()))
    {
      if animation.Some? {
        frame := animation.value.restFrame;
      }
      if skinning.Some? {
        pos := skinning.value.restPos;
        norm := skinning.value.restNorm;
      }
      if simulation != null {
        pos := simulation.initPos;
        simulation.vel := simulation.initVel;
        simulation.force := Resize(simulation.force, |simulation.initPos|);
      }
    }
  }

  /** The frame step of a mesh at `time`: an animated mesh takes the frame
      of its track; any other is left alone. */
  function FrameStep(vm: VMath, m: Mesh, time: int, st: MeshState): (r: MeshState)
    requires m.animation.Some? ==> Keyframe.TrackReady(m.animation.value, time)
    ensures r.pos == st.pos && r.norm == st.norm && r.vel == st.vel && r.force == st.force
    ensures m.animation.None? ==> r == st
  {
    if m.animation.Some? then st.(frame := Keyframe.FrameAt(vm, m.animation.value, time)) else st
  }

  /** The skinning step of a mesh at `time`: every position becomes the
      blended rest position, and the first `|pos|` normals the normalized
      blended rest normal. */
  function SkinStep(vm: VMath, m: Mesh, time: int, st: MeshState): (r: MeshState)
    requires m.skinning.Some? ==> Skinning.Ready(m.skinning.value, |st.pos|, |st.norm|, time)
    ensures r.frame == st.frame && r.vel == st.vel && r.force == st.force
    ensures |r.pos| == |st.pos| && |r.norm| == |st.norm|
    ensures forall i :: |st.pos| <= i < |st.norm| ==> r.norm[i] == st.norm[i]
  {
    if m.skinning.None? then st
    else
      var sk, np, nn := m.skinning.value, |st.pos|, |st.norm|;
      st.(pos := seq(np, i requires 0 <= i < np => Skinning.SkinnedPos(vm, sk, np, nn, time, i)),
          norm := seq(nn, i requires 0 <= i < nn =>
                        if i < np then Skinning.SkinnedNorm(vm, sk, np, nn, time, i) else st.norm[i]))
  }

  /** A simulated mesh's particle arrays and springs fit each other. */
  predicate SimReady(m: Mesh, st: MeshState) {
    m.simulation != null ==>
      Particles.Fits(m.simulation.Body(), Particles.ParticleState(st.pos, st.vel, st.force))
  }

  /** The simulation step of a mesh: `SubSteps` sub-steps from the current
      particles, then smooth normals of the final positions if the mesh has
      faces and at least one sub-step ran. */
  function SimStep(vm: VMath, tess: Tesselation, cs: seq<Particles.Collider>, ph: Particles.Physics,
                   m: Mesh, st: MeshState): (r: MeshState)
    requires SimReady(m, st)
    ensures SimReady(m, r)
    ensures r.frame == st.frame && |r.pos| == |st.pos|
    ensures !m.HasTopology() ==> r.norm == st.norm
  {
    if m.simulation == null then st
    else
      var n := Particles.SubSteps(ph);
      var ps := Particles.Simulated(vm, cs, ph, m.simulation.Body(), n,
                                    Particles.ParticleState(st.pos, st.vel, st.force));
      MeshState(st.frame, ps.pos,
                if n > 0 && m.HasTopology() then tess.smoothNormals(ps.pos, m.triangles, m.quads) else st.norm,
                ps.vel, ps.force)
  }

  /** The reset step of a mesh. */
  function ResetStep(m: Mesh, st: MeshState): MeshState {
    var st1 := if m.animation.Some? then st.(frame := m.animation.value.restFrame) else st;
    var st2 := if m.skinning.Some? then st1.(pos := m.skinning.value.restPos, norm := m.skinning.value.restNorm)
               else st1;
    if m.simulation != null then
      st2.(pos := m.simulation.initPos, vel := m.simulation.initVel,
           force := Resize(st2.force, |m.simulation.initPos|))
    else st2
  }

  /** `Resize` to the length a buffer already has leaves it as it is. */
  lemma ResizeSameLength(s: seq<Vec3>, n: nat)
    requires |s| == n
    ensures Resize(s, n) == s
  {
    assert s[..n] == s;
  }

  /** Resetting twice is resetting once: the reset state depends only on
      the mesh's fixed data and on the parts of the state it leaves alone. */
  lemma ResetIdempotent(m: Mesh, st: MeshState)
    ensures ResetStep(m, ResetStep(m, st)) == ResetStep(m, st)
  {
    if m.simulation != null {
      ResizeSameLength(ResetStep(m, st).force, |m.simulation.initPos|);
    }
  }

  /** An analytic surface: a sphere or a quad of half-size `radius` placed by
      `frame`, with the display mesh built from it. */
  class Surface {
    var frame: Frame3
    const radius: real
    const isQuad: bool
    const animation: Option<Keyframe.FrameAnimation>
    var displayMesh: SurfaceMesh

    constructor (frame: Frame3, radius: real, isQuad: bool, animation: Option<Keyframe.FrameAnimation>,
                 displayMesh: SurfaceMesh)
      ensures this.frame == frame && this.radius == radius && this.isQuad == isQuad
      ensures this.animation == animation && this.displayMesh == displayMesh
    {
      this.frame, this.radius, this.isQuad := frame, radius, isQuad;
      this.animation, this.displayMesh := animation, displayMesh;
    }

    ghost function State(): SurfaceState
      reads this
    {
      SurfaceState(frame, displayMesh)
    }

    /** The surface as the simulation sees it. */
    function AsCollider(): Particles.Collider
      reads this
    {
      Particles.Collider(frame, radius, isQuad)
    }
  }

  datatype SurfaceState = SurfaceState(frame: Frame3, displayMesh: SurfaceMesh)

  /** The frame step of a surface at `time`: an animated surface takes the
      frame of its track and a display mesh rebuilt from that frame. */
  function SurfaceFrameStep(vm: VMath, tess: Tesselation, s: Surface, time: int, st: SurfaceState): SurfaceState
    requires s.animation.Some? ==> Keyframe.TrackReady(s.animation.value, time)
  {
    if s.animation.None? then st
    else
      var f := Keyframe.FrameAt(vm, s.animation.value, time);
      SurfaceState(f, tess.makeSurfaceMesh(f, s.radius, s.isQuad))
  }

  /** The colliders of `ss`, in scene order. */
  function CollidersOf(ss: seq<Surface>): seq<Particles.Collider>
    reads ss
  {
    seq(|ss|, k requires 0 <= k < |ss| reads ss => ss[k].AsCollider())
  }
}


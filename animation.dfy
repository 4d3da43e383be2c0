/** The scene-level passes of the animation loop: keyframe frames, skinning,
    particle simulation, reset, and the per-tick update that sequences them. */
module Animation {
  import opened VecMath
  import Keyframe
  import Skinning
  import Particles
  import opened Meshes

  /** The tick after `time` for an animation of `length` ticks: one more,
      or, once the last tick is reached, back to 0 when looping and
      otherwise the same tick. */
  function NextTime(time: int, length: int, loop: bool): (t: int)
    ensures 0 <= time < length ==> 0 <= t < length
    ensures loop && 0 <= time && 1 <= length ==> 0 <= t < length
    ensures t == time <==> time >= length - 1 && (!loop || time == 0)
  {
    if time >= length - 1 then (if loop then 0 else time) else time + 1
  }

  /** The tick after `n` updates starting from `time`. */
  function TimeAfter(n: nat, time: int, length: int, loop: bool): int {
    if n == 0 then time else NextTime(TimeAfter(n - 1, time, length, loop), length, loop)
  }

  /** A looping animation started at tick 0 is at tick `n % length` after
      `n` updates: it visits every tick in order and wraps around. */
  lemma {:induction false} LoopingPlaybackCycles(n: nat, length: int)
    requires 1 <= length
    ensures TimeAfter(n, 0, length, true) == n % length
  {
    if n > 0 {
      LoopingPlaybackCycles(n - 1, length);
      ModSucc(n - 1, length);
    }
  }

  /** Counting modulo `k`: one more, or back to 0 after `k - 1`. */
  lemma ModSucc(m: nat, k: int)
    requires 1 <= k
    ensures (m + 1) % k == if m % k < k - 1 then m % k + 1 else 0
  {
    var q, r := m / k, m % k;
    if r < k - 1 {
      ModOfDecomposition(m + 1, k, q, r + 1);
    } else {
      ModOfDecomposition(m + 1, k, q + 1, 0);
    }
  }

  /** `a % k` is the remainder of any decomposition `a == q * k + r`. */
  lemma ModOfDecomposition(a: int, k: int, q: int, r: int)
    requires 1 <= k && 0 <= r < k && a == q * k + r
    ensures a % k == r
  {
    var q', r' := a / k, a % k;
    assert (q - q') * k == r' - r;
    if q > q' {
      MulAtLeast(q - q', k);
    } else if q < q' {
      MulAtLeast(q' - q, k);
    }
  }

  lemma MulAtLeast(d: int, k: int)
    requires 1 <= d && 1 <= k
    ensures d * k >= k
  {
  }

  /** A non-looping animation started at tick 0 advances one tick per update
      and then stays on its last tick. */
  lemma {:induction false} PlaybackStopsAtEnd(n: nat, length: int)
    requires 1 <= length
    ensures TimeAfter(n, 0, length, false) == if n < length - 1 then n else length - 1
  {
    if n > 0 {
      PlaybackStopsAtEnd(n - 1, length);
    }
  }

  /** Everything a mesh needs at tick `t` for the frame, skinning and
      simulation passes, evaluated on the state those passes start from. */
  predicate MeshReady(m: Mesh, gpuSkinning: bool, t: int, st: MeshState) {
    (m.animation.Some? ==> Keyframe.TrackReady(m.animation.value, t)) &&
    (!gpuSkinning && m.skinning.Some? ==> Skinning.Ready(m.skinning.value, |st.pos|, |st.norm|, t)) &&
    SimReady(m, st)
  }

  /** One tick of a mesh after the time has moved: frame, then skinning
      unless it is done on the GPU, then simulation against `cs`. */
  function MeshTick(vm: VMath, tess: Tesselation, cs: seq<Particles.Collider>, ph: Particles.Physics,
                    gpuSkinning: bool, m: Mesh, t: int, st: MeshState): (r: MeshState)
    requires MeshReady(m, gpuSkinning, t, st)
    ensures SimReady(m, r) && |r.pos| == |st.pos|
  {
    var s1 := FrameStep(vm, m, t, st);
    var s2 := if gpuSkinning then s1 else SkinStep(vm, m, t, s1);
    SimStep(vm, tess, cs, ph, m, s2)
  }

  /** A scene: the playback clock and settings, and the meshes and surfaces
      the passes update. */
  class Scene {
    var time: int
    const length: int
    const loop: bool
    const gpuSkinning: bool
    const physics: Particles.Physics
    const meshes: seq<Mesh>
    const surfaces: seq<Surface>

    constructor (length: int, loop: bool, gpuSkinning: bool, physics: Particles.Physics,
                 meshes: seq<Mesh>, surfaces: seq<Surface>)
      requires forall i, j :: 0 <= i < j < |meshes| ==> meshes[i] != meshes[j]
      requires forall i, j :: 0 <= i < |meshes| && 0 <= j < |meshes| && i != j && meshes[i].simulation != null ==>
                 meshes[i].simulation != meshes[j].simulation
      requires forall i, j :: 0 <= i < j < |surfaces| ==> surfaces[i] != surfaces[j]
      ensures Valid()
      ensures time == 0 && this.length == length && this.loop == loop && this.gpuSkinning == gpuSkinning
      ensures this.physics == physics && this.meshes == meshes && this.surfaces == surfaces
    {
      time := 0;
      this.length, this.loop, this.gpuSkinning := length, loop, gpuSkinning;
      this.physics, this.meshes, this.surfaces := physics, meshes, surfaces;
    }

    /** No mesh, simulation or surface is shared between two entries. */
    ghost predicate Valid() {
      (forall i, j :: 0 <= i < j < |meshes| ==> meshes[i] != meshes[j]) &&
      (forall i, j :: 0 <= i < |meshes| && 0 <= j < |meshes| && i != j && meshes[i].simulation != null ==>
         meshes[i].simulation != meshes[j].simulation) &&
      (forall i, j :: 0 <= i < j < |surfaces| ==> surfaces[i] != surfaces[j])
    }

    ghost function Simulations(): set<Simulation?> {
      set m | m in meshes :: m.simulation
    }

    /** The animation is over and does not loop: an update changes nothing. */
    predicate Frozen()
      reads this
    {
      time >= length - 1 && !loop
    }

    /** The update wraps around to tick 0 through a reset. */
    predicate Wraps()
      reads this
    {
      time >= length - 1 && loop
    }

    /** animate_frame: every animated mesh and surface takes the frame of
        its track at the current tick; surfaces rebuild their display mesh. */
    method AnimateFrame(vm: VMath, tess: Tesselation)
      requires Valid()
      requires forall i :: 0 <= i < |meshes| && meshes[i].animation.Some? ==>
                 Keyframe.TrackReady(meshes[i].animation.value, time)
      requires forall k :: 0 <= k < |surfaces| && surfaces[k].animation.Some? ==>
                 Keyframe.TrackReady(surfaces[k].animation.value, time)
      modifies meshes, surfaces
      ensures forall i :: 0 <= i < |meshes| ==>
                meshes[i].State() == FrameStep(vm, meshes[i], time, old(meshes[i].State()))
      ensures forall k :: 0 <= k < |surfaces| ==>
                surfaces[k].State() == SurfaceFrameStep(vm, tess, surfaces[k], time, old(surfaces[k].State()))
    {
      FrameMeshes(vm);
      FrameSurfaces(vm, tess);
    }

    /** The mesh loop of animate_frame. */
    method FrameMeshes(vm: VMath)
      requires Valid()
      requires forall i :: 0 <= i < |meshes| && meshes[i].animation.Some? ==>
                 Keyframe.TrackReady(meshes[i].animation.value, time)
      modifies meshes
      ensures forall i :: 0 <= i < |meshes| ==>
                meshes[i].State() == FrameStep(vm, meshes[i], time, old(meshes[i].State()))
    {
      for i := 0 to |meshes|
        invariant forall k :: 0 <= k < i ==>
                    meshes[k].State() == FrameStep(vm, meshes[k], time, old(meshes[k].State()))
        invariant forall k :: i <= k < |meshes| ==> meshes[k].State() == old(meshes[k].State())
      {
        var mesh := meshes[i];
        if mesh.animation.None? {
          continue;
        }
        var updatedFrame := Keyframe.ComputeFrame(vm, mesh.animation.value, time);
        mesh.frame := updatedFrame;
      }
    }

    /** The surface loop of animate_frame. */
    method FrameSurfaces(vm: VMath, tess: Tesselation)
      requires Valid()
      requires forall k :: 0 <= k < |surfaces| && surfaces[k].animation.Some? ==>
                 Keyframe.TrackReady(surfaces[k].animation.value, time)
      modifies surfaces
      ensures forall k :: 0 <= k < |surfaces| ==>
                surfaces[k].State() == SurfaceFrameStep(vm, tess, surfaces[k], time, old(surfaces[k].State()))
    {
      for i := 0 to |surfaces|
        invariant forall k :: 0 <= k < i ==>
                    surfaces[k].State() == SurfaceFrameStep(vm, tess, surfaces[k], time, old(surfaces[k].State()))
        invariant forall k :: i <= k < |surfaces| ==> surfaces[k].State() == old(surfaces[k].State())
      {
        var surface := surfaces[i];
        if surface.animation.None? {
          continue;
        }
        var updatedFrame := Keyframe.ComputeFrame(vm, surface.animation.value, time);
        surface.frame := updatedFrame;
        surface.displayMesh := tess.makeSurfaceMesh(surface.frame, surface.radius, surface.isQuad);
      }
    }

    /** animate_skin: every skinned mesh is skinned with the bones of the
        current tick. */
    method AnimateSkin(vm: VMath)
      requires Valid()
      requires forall i :: 0 <= i < |meshes| && meshes[i].skinning.Some? ==>
                 Skinning.Ready(meshes[i].skinning.value, |meshes[i].pos|, |meshes[i].norm|, time)
      modifies meshes
      ensures forall i :: 0 <= i < |meshes| ==>
                meshes[i].State() == SkinStep(vm, meshes[i], time, old(meshes[i].State()))
    {
      for i := 0 to |meshes|
        invariant forall k :: 0 <= k < i ==>
                    meshes[k].State() == SkinStep(vm, meshes[k], time, old(meshes[k].State()))
        invariant forall k :: i <= k < |meshes| ==> meshes[k].State() == old(meshes[k].State())
      {
        meshes[i].Skin(vm, time);
      }
    }

    /** simulate: every simulated mesh runs its sub-steps against the
        scene's surfaces. */
    method Simulate(vm: VMath, tess: Tesselation)
      requires Valid()
      requires forall i :: 0 <= i < |meshes| ==> SimReady(meshes[i], meshes[i].State())
      modifies meshes, Simulations()
      ensures forall i :: 0 <= i < |meshes| ==>
                meshes[i].State() ==
                SimStep(vm, tess, CollidersOf(surfaces), physics, meshes[i], old(meshes[i].State()))
    {
      var cs := CollidersOf(surfaces);
      for i := 0 to |meshes|
        invariant forall k :: 0 <= k < i ==>
                    meshes[k].State() == SimStep(vm, tess, cs, physics, meshes[k], old(meshes[k].State()))
        invariant forall k :: i <= k < |meshes| ==> meshes[k].State() == old(meshes[k].State())
      {
        meshes[i].Simulate(vm, tess, cs, physics);
      }
    }

    /** animate_reset: the clock goes back to tick 0 and every mesh back to
        its rest state. */
    method Reset()
      requires Valid()
      modifies this, meshes, Simulations()
      ensures time == 0
      ensures forall i :: 0 <= i < |meshes| ==> meshes[i].State() == ResetStep(meshes[i], old(meshes[i].State()))
      ensures forall k :: 0 <= k < |surfaces| ==> surfaces[k].State() == old(surfaces[k].State())
    {
      time := 0;
      for i := 0 to |meshes|
        invariant time == 0
        invariant forall k :: 0 <= k < i ==> meshes[k].State() == ResetStep(meshes[k], old(meshes[k].State()))
        invariant forall k :: i <= k < |meshes| ==> meshes[k].State() == old(meshes[k].State())
        invariant forall k :: 0 <= k < |surfaces| ==> surfaces[k].State() == old(surfaces[k].State())
      {
        meshes[i].Reset();
      }
    }

    /** animate_update: past the last tick a looping scene is reset and a
        non-looping one left alone; otherwise the clock advances.  Then
        frames, skinning (unless on the GPU) and simulation, in that order. */
    method Update(vm: VMath, tess: Tesselation)
      requires Valid()
      requires !Frozen() ==>
                 var t := NextTime(time, length, loop);
                 (forall k :: 0 <= k < |surfaces| && surfaces[k].animation.Some? ==>
                    Keyframe.TrackReady(surfaces[k].animation.value, t)) &&
                 forall i :: 0 <= i < |meshes| ==>
                   MeshReady(meshes[i], gpuSkinning, t,
                             if Wraps() then ResetStep(meshes[i], meshes[i].State()) else meshes[i].State())
      modifies this, meshes, Simulations(), surfaces
      ensures old(Frozen()) ==>
                time == old(time) &&
                (forall i :: 0 <= i < |meshes| ==> meshes[i].State() == old(meshes[i].State())) &&
                forall k :: 0 <= k < |surfaces| ==> surfaces[k].State() == old(surfaces[k].State())
      ensures !old(Frozen()) ==>
                time == NextTime(old(time), length, loop) &&
                (forall k :: 0 <= k < |surfaces| ==>
                   surfaces[k].State() == SurfaceFrameStep(vm, tess, surfaces[k], time, old(surfaces[k].State()))) &&
                forall i :: 0 <= i < |meshes| ==>
                  meshes[i].State() ==
                  MeshTick(vm, tess, CollidersOf(surfaces), physics, gpuSkinning, meshes[i], time,
                           if old(Wraps()) then ResetStep(meshes[i], old(meshes[i].State()))
                           else old(meshes[i].State()))
    {
      if time >= length - 1 {
        if loop {
          Reset();
        } else {
          return;
        }
      } else {
        time := time + 1;
      }
      AnimateFrame(vm, tess);
      if !gpuSkinning {
        AnimateSkin(vm);
      }
      Simulate(vm, tess);
    }
  }
}

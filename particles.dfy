/** Mass-spring particle dynamics: one sub-step is a force reset to gravity,
    a spring pass, explicit integration of every unpinned particle and
    collision projection against the scene's colliders.  These functions are
    the specification that the in-place methods of Meshes are proved
    against. */
module Particles {
  import opened VecMath

  /** A spring between particles `id0` and `id1`. */
  datatype Spring = Spring(id0: int, id1: int, restLength: real, ks: real, kd: real)

  /** A static collider: a quad of half-size `radius` in the x/y plane of
      `frame` (inside is local z < 0), or a sphere of `radius` around
      `frame.o`. */
  datatype Collider = Collider(frame: Frame3, radius: real, isQuad: bool)

  /** The per-mesh constants of a simulation. */
  datatype Body = Body(mass: seq<real>, pinned: seq<bool>, springs: seq<Spring>)

  /** The scene-wide stepping constants.  `bounceDump.0` damps the
      tangential part of a colliding velocity, `bounceDump.1` the normal
      part. */
  datatype Physics = Physics(dt: real, simsteps: int, gravity: Vec3, bounceDump: (real, real))

  /** The state a sub-step updates. */
  datatype ParticleState = ParticleState(pos: seq<Vec3>, vel: seq<Vec3>, force: seq<Vec3>)

  predicate SpringFits(s: Spring, n: nat) {
    0 <= s.id0 < n && 0 <= s.id1 < n
  }

  predicate SpringsFit(springs: seq<Spring>, n: nat) {
    forall k :: 0 <= k < |springs| ==> SpringFits(springs[k], n)
  }

  /** One entry per particle in every per-particle array, springs between
      existing particles, and a nonzero mass for every particle that is
      integrated. */
  predicate Fits(body: Body, st: ParticleState) {
    |st.vel| == |st.pos| && |st.force| == |st.pos| &&
    |body.mass| == |st.pos| && |body.pinned| == |st.pos| &&
    SpringsFit(body.springs, |st.pos|) &&
    forall j :: 0 <= j < |st.pos| && !body.pinned[j] ==> body.mass[j] != 0.0
  }

  /** Number of sub-steps per tick; none when `simsteps` is not positive. */
  function SubSteps(ph: Physics): nat {
    if ph.simsteps > 0 then ph.simsteps else 0
  }

  /** `dt / simsteps`.  With no sub-steps the value is never used. */
  function StepSize(ph: Physics): real {
    if ph.simsteps > 0 then ph.dt / ph.simsteps as real else 0.0
  }

  /** The force accumulator after the reset: `gravity * mass[j]`. */
  function GravityForces(gravity: Vec3, mass: seq<real>, n: nat): (f: seq<Vec3>)
    requires n <= |mass|
    ensures |f| == n
  {
    seq(n, j requires 0 <= j < n => Scale(mass[j], gravity))
  }

  /** Static plus damping force of spring `s`, along the unit direction from
      particle `id0` to particle `id1`. */
  function SpringForce(vm: VMath, s: Spring, pos: seq<Vec3>, vel: seq<Vec3>): Vec3
    requires SpringFits(s, |pos|) && |vel| == |pos|
  {
    var d := Sub(pos[s.id1], pos[s.id0]);
    var dir := vm.normalize(d);
    var staticForce := Scale(s.ks * (vm.length(d) - s.restLength), dir);
    var dynamicForce := Scale(s.kd * Dot(Sub(vel[s.id1], vel[s.id0]), dir), dir);
    Add(staticForce, dynamicForce)
  }

  /** `f[k] += v`. */
  function AddAt(f: seq<Vec3>, k: int, v: Vec3): seq<Vec3>
    requires 0 <= k < |f|
  {
    f[k := Add(f[k], v)]
  }

  /** The spring pass over `springs`, in order: each spring adds its force to
      particle `id0` and its negation to particle `id1`. */
  function ApplySprings(vm: VMath, springs: seq<Spring>, pos: seq<Vec3>, vel: seq<Vec3>,
                        force: seq<Vec3>): (r: seq<Vec3>)
    requires |vel| == |pos| && |force| == |pos| && SpringsFit(springs, |pos|)
    ensures |r| == |force|
    decreases |springs|
  {
    if springs == [] then force
    else
      var s := springs[|springs| - 1];
      var f := ApplySprings(vm, springs[..|springs| - 1], pos, vel, force);
      var F := SpringForce(vm, s, pos, vel);
      AddAt(AddAt(f, s.id0, F), s.id1, Scale(-1.0, F))
  }

  /** The spring pass over the first `k + 1` springs is the pass over the
      first `k` followed by spring `k`. */
  lemma ApplySpringsPrefix(vm: VMath, springs: seq<Spring>, k: int, pos: seq<Vec3>, vel: seq<Vec3>,
                           force: seq<Vec3>)
    requires |vel| == |pos| && |force| == |pos| && SpringsFit(springs, |pos|) && 0 <= k < |springs|
    ensures SpringsFit(springs[..k], |pos|) && SpringsFit(springs[..k + 1], |pos|)
    ensures var s, F := springs[k], SpringForce(vm, springs[k], pos, vel);
            ApplySprings(vm, springs[..k + 1], pos, vel, force) ==
            AddAt(AddAt(ApplySprings(vm, springs[..k], pos, vel, force), s.id0, F), s.id1, Scale(-1.0, F))
  {
    assert springs[..k + 1][..k] == springs[..k];
  }

  /** The velocity after a hit against a surface with normal `n`: the
      tangential part scaled by `1 - bounceDump.0` plus the reversed normal
      part scaled by `1 - bounceDump.1`. */
  function Bounce(v: Vec3, n: Vec3, bounceDump: (real, real)): Vec3 {
    Add(Scale(1.0 - bounceDump.0, Sub(v, Scale(Dot(n, v), n))),
        Scale(1.0 - bounceDump.1, Scale(-1.0 * Dot(n, v), n)))
  }

  /** A local position strictly inside a quad collider of half-size `r`. */
  predicate InsideQuad(l: Vec3, r: real) {
    l.z < 0.0 && l.x > -1.0 * r && l.x < r && l.y > -1.0 * r && l.y < r
  }

  /** One collider's test and response for a particle at `p` moving at `v`:
      on a hit the particle is projected onto the collider and its velocity
      bounced; otherwise both are kept. */
  function Collide(vm: VMath, c: Collider, bounceDump: (real, real), p: Vec3, v: Vec3): (Vec3, Vec3) {
    if c.isQuad then
      var l := vm.framePointInverse(c.frame, p);
      if InsideQuad(l, c.radius) then
        (vm.framePoint(c.frame, Vec3(l.x, l.y, 0.0)), Bounce(v, c.frame.z, bounceDump))
      else (p, v)
    else if vm.length(Sub(p, c.frame.o)) < c.radius then
      var p' := Add(Scale(c.radius, vm.normalize(Sub(p, c.frame.o))), c.frame.o);
      (p', Bounce(v, vm.normalize(Sub(p', c.frame.o)), bounceDump))
    else (p, v)
  }

  /** The colliders tested one after the other, in order, each on the
      result of the previous ones. */
  function CollideAll(vm: VMath, cs: seq<Collider>, bounceDump: (real, real), p: Vec3, v: Vec3): (Vec3, Vec3)
    decreases |cs|
  {
    if cs == [] then (p, v)
    else
      var pv := CollideAll(vm, cs[..|cs| - 1], bounceDump, p, v);
      Collide(vm, cs[|cs| - 1], bounceDump, pv.0, pv.1)
  }

  /** Explicit integration over `h`: the velocity first, then the position
      from the new velocity plus the second-order acceleration term. */
  function Integrate(h: real, mass: real, force: Vec3, p: Vec3, v: Vec3): (Vec3, Vec3)
    requires mass != 0.0
  {
    var acc := Div(force, mass);
    var v' := Add(v, Scale(h, acc));
    (Add(p, Add(Scale(h, v'), Div(Scale(h * h, acc), 2.0))), v')
  }

  /** A pinned particle is left alone; any other is integrated and then
      tested against every collider. */
  function MoveParticle(vm: VMath, cs: seq<Collider>, ph: Physics, pinned: bool, mass: real,
                        force: Vec3, p: Vec3, v: Vec3): (Vec3, Vec3)
    requires pinned || mass != 0.0
  {
    if pinned then (p, v)
    else
      var pv := Integrate(StepSize(ph), mass, force, p, v);
      CollideAll(vm, cs, ph.bounceDump, pv.0, pv.1)
  }

  /** The forces of a sub-step: gravity, then the spring pass. */
  function SubStepForces(vm: VMath, ph: Physics, body: Body, st: ParticleState): (f: seq<Vec3>)
    requires Fits(body, st)
    ensures |f| == |st.pos|
  {
    ApplySprings(vm, body.springs, st.pos, st.vel, GravityForces(ph.gravity, body.mass, |st.force|))
  }

  /** The particles after the integration and collision pass, given the
      forces `f` of the sub-step. */
  function MoveAll(vm: VMath, cs: seq<Collider>, ph: Physics, body: Body, f: seq<Vec3>,
                   st: ParticleState): (r: seq<(Vec3, Vec3)>)
    requires Fits(body, st) && |f| == |st.pos|
    ensures |r| == |st.pos|
  {
    seq(|st.pos|, j requires 0 <= j < |st.pos| =>
      MoveParticle(vm, cs, ph, body.pinned[j], body.mass[j], f[j], st.pos[j], st.vel[j]))
  }

  /** One sub-step of the simulation. */
  function SubStep(vm: VMath, cs: seq<Collider>, ph: Physics, body: Body, st: ParticleState): (r: ParticleState)
    requires Fits(body, st)
    ensures Fits(body, r)
  {
    var f := SubStepForces(vm, ph, body, st);
    var moved := MoveAll(vm, cs, ph, body, f, st);
    ParticleState(seq(|moved|, j requires 0 <= j < |moved| => moved[j].0),
                  seq(|moved|, j requires 0 <= j < |moved| => moved[j].1),
                  f)
  }

  /** `n` sub-steps in a row. */
  function Simulated(vm: VMath, cs: seq<Collider>, ph: Physics, body: Body, n: nat,
                     st: ParticleState): (r: ParticleState)
    requires Fits(body, st)
    ensures Fits(body, r)
  {
    if n == 0 then st else SubStep(vm, cs, ph, body, Simulated(vm, cs, ph, body, n - 1, st))
  }

  // ---------------------------------------------------------------------
  // Properties

  /** Vector sum of a sequence of forces. */
  function Total(f: seq<Vec3>): Vec3 {
    if f == [] then Zero else Add(Total(f[..|f| - 1]), f[|f| - 1])
  }

  function SumMass(mass: seq<real>): real {
    if mass == [] then 0.0 else SumMass(mass[..|mass| - 1]) + mass[|mass| - 1]
  }

  /** Adding `v` to one entry adds `v` to the total. */
  lemma {:induction false} TotalAddAt(f: seq<Vec3>, k: int, v: Vec3)
    requires 0 <= k < |f|
    ensures Total(AddAt(f, k, v)) == Add(Total(f), v)
  {
    var n := |f|;
    var g := AddAt(f, k, v);
    if k < n - 1 {
      assert g[..n - 1] == AddAt(f[..n - 1], k, v);
      TotalAddAt(f[..n - 1], k, v);
    } else {
      assert g[..n - 1] == f[..n - 1];
    }
  }

  /** Newton's third law for the spring pass: each spring adds equal and
      opposite forces, so the total force is unchanged. */
  lemma {:induction false} SpringsKeepTotal(vm: VMath, springs: seq<Spring>, pos: seq<Vec3>,
                                            vel: seq<Vec3>, force: seq<Vec3>)
    requires |vel| == |pos| && |force| == |pos| && SpringsFit(springs, |pos|)
    ensures Total(ApplySprings(vm, springs, pos, vel, force)) == Total(force)
    decreases |springs|
  {
    if springs != [] {
      var s := springs[|springs| - 1];
      var f := ApplySprings(vm, springs[..|springs| - 1], pos, vel, force);
      var F := SpringForce(vm, s, pos, vel);
      SpringsKeepTotal(vm, springs[..|springs| - 1], pos, vel, force);
      TotalAddAt(f, s.id0, F);
      TotalAddAt(AddAt(f, s.id0, F), s.id1, Scale(-1.0, F));
    }
  }

  /** After the force reset the total force is gravity times the total
      mass. */
  lemma {:induction false} GravityTotal(gravity: Vec3, mass: seq<real>, n: nat)
    requires n <= |mass|
    ensures Total(GravityForces(gravity, mass, n)) == Scale(SumMass(mass[..n]), gravity)
  {
    if n > 0 {
      GravityTotal(gravity, mass, n - 1);
      assert GravityForces(gravity, mass, n)[..n - 1] == GravityForces(gravity, mass, n - 1);
      assert mass[..n][..n - 1] == mass[..n - 1];
    }
  }

  /** The forces a sub-step leaves in the accumulator add up to gravity
      times the mesh's total mass: springs are internal forces. */
  lemma SubStepNetForce(vm: VMath, cs: seq<Collider>, ph: Physics, body: Body, st: ParticleState)
    requires Fits(body, st)
    ensures Total(SubStep(vm, cs, ph, body, st).force) == Scale(SumMass(body.mass), ph.gravity)
  {
    var g := GravityForces(ph.gravity, body.mass, |st.force|);
    SpringsKeepTotal(vm, body.springs, st.pos, st.vel, g);
    GravityTotal(ph.gravity, body.mass, |st.force|);
    assert body.mass[..|st.force|] == body.mass;
  }

  /** The force accumulator is transient: a sub-step's result does not
      depend on the forces left by the previous one. */
  lemma SubStepIgnoresOldForces(vm: VMath, cs: seq<Collider>, ph: Physics, body: Body,
                                st: ParticleState, force: seq<Vec3>)
    requires Fits(body, st) && |force| == |st.force|
    ensures SubStep(vm, cs, ph, body, st.(force := force)) == SubStep(vm, cs, ph, body, st)
  {
    assert SubStepForces(vm, ph, body, st.(force := force)) == SubStepForces(vm, ph, body, st);
  }

  /** A pinned particle keeps its position and velocity over any number of
      sub-steps, collisions included. */
  lemma {:induction false} PinnedStays(vm: VMath, cs: seq<Collider>, ph: Physics, body: Body,
                                       n: nat, st: ParticleState, j: int)
    requires Fits(body, st) && 0 <= j < |st.pos| && body.pinned[j]
    ensures Simulated(vm, cs, ph, body, n, st).pos[j] == st.pos[j]
    ensures Simulated(vm, cs, ph, body, n, st).vel[j] == st.vel[j]
  {
    if n > 0 {
      PinnedStays(vm, cs, ph, body, n - 1, st, j);
    }
  }

  /** Testing two runs of colliders one after the other is testing their
      concatenation: every collider sees the particle as the previous ones
      left it. */
  lemma {:induction false} CollideAllConcat(vm: VMath, cs: seq<Collider>, ds: seq<Collider>,
                                            bounceDump: (real, real), p: Vec3, v: Vec3)
    ensures var pv := CollideAll(vm, cs, bounceDump, p, v);
            CollideAll(vm, cs + ds, bounceDump, p, v) == CollideAll(vm, ds, bounceDump, pv.0, pv.1)
    decreases |ds|
  {
    if ds == [] {
      assert cs + ds == cs;
    } else {
      var ds' := ds[..|ds| - 1];
      assert (cs + ds)[..|cs + ds| - 1] == cs + ds';
      CollideAllConcat(vm, cs, ds', bounceDump, p, v);
    }
  }

  /** A particle strictly inside a sphere collider is moved along the ray
      from the centre to distance `radius`: it lands at `radius` times the
      unit direction, so at distance exactly `radius` whenever `length`
      and `normalize` agree on that vector. */
  lemma SphereContact(vm: VMath, c: Collider, bounceDump: (real, real), p: Vec3, v: Vec3)
    requires !c.isQuad && vm.length(Sub(p, c.frame.o)) < c.radius
    ensures var p' := Collide(vm, c, bounceDump, p, v).0;
            Sub(p', c.frame.o) == Scale(c.radius, vm.normalize(Sub(p, c.frame.o))) &&
            (vm.length(Scale(c.radius, vm.normalize(Sub(p, c.frame.o)))) == c.radius ==>
               vm.length(Sub(p', c.frame.o)) == c.radius)
  {
    var p' := Collide(vm, c, bounceDump, p, v).0;
    var u := Scale(c.radius, vm.normalize(Sub(p, c.frame.o)));
    assert p' == Add(u, c.frame.o);
    assert Sub(Add(u, c.frame.o), c.frame.o) == u;
  }

  /** A particle strictly inside a quad collider is moved onto the quad's
      plane at the same local x and y: whenever the frame's forward and
      inverse point maps are inverse, its new local position has z = 0 and
      it is no longer inside. */
  lemma QuadContact(vm: VMath, c: Collider, bounceDump: (real, real), p: Vec3, v: Vec3)
    requires c.isQuad && InsideQuad(vm.framePointInverse(c.frame, p), c.radius)
    ensures var l := vm.framePointInverse(c.frame, p);
            var p' := Collide(vm, c, bounceDump, p, v).0;
            var q := Vec3(l.x, l.y, 0.0);
            vm.framePointInverse(c.frame, vm.framePoint(c.frame, q)) == q ==>
              vm.framePointInverse(c.frame, p') == q &&
              !InsideQuad(vm.framePointInverse(c.frame, p'), c.radius)
  {
  }

  /** A particle that no collider contains keeps its position and
      velocity. */
  lemma {:induction false} CollideAllMisses(vm: VMath, cs: seq<Collider>, bounceDump: (real, real),
                                            p: Vec3, v: Vec3)
    requires forall k :: 0 <= k < |cs| ==>
      if cs[k].isQuad then !InsideQuad(vm.framePointInverse(cs[k].frame, p), cs[k].radius)
      else vm.length(Sub(p, cs[k].frame.o)) >= cs[k].radius
    ensures CollideAll(vm, cs, bounceDump, p, v) == (p, v)
    decreases |cs|
  {
    if cs != [] {
      CollideAllMisses(vm, cs[..|cs| - 1], bounceDump, p, v);
    }
  }

  lemma DotAddScale(a: real, x: Vec3, b: real, y: Vec3, n: Vec3)
    ensures Dot(Add(Scale(a, x), Scale(b, y)), n) == a * Dot(x, n) + b * Dot(y, n)
  {
  }

  /** For a unit normal the bounce keeps the two parts of the velocity
      apart: the normal part becomes `-(1 - bounceDump.1)` times the old
      one, the tangential part `(1 - bounceDump.0)` times the old one. */
  lemma BounceSplitsVelocity(v: Vec3, n: Vec3, bounceDump: (real, real))
    requires Dot(n, n) == 1.0
    ensures var b := Bounce(v, n, bounceDump);
            Dot(n, b) == -(1.0 - bounceDump.1) * Dot(n, v) &&
            Sub(b, Scale(Dot(n, b), n)) == Scale(1.0 - bounceDump.0, Sub(v, Scale(Dot(n, v), n)))
  {
    var a := Dot(n, v);
    var t := Sub(v, Scale(a, n));
    var c0, c1 := 1.0 - bounceDump.0, 1.0 - bounceDump.1;
    var b := Bounce(v, n, bounceDump);
    assert Dot(t, n) == Dot(v, n) - a * Dot(n, n);
    assert Dot(t, n) == 0.0;
    assert b == Add(Scale(c0, t), Scale(c1, Scale(-1.0 * a, n)));
    assert Scale(c1, Scale(-1.0 * a, n)) == Scale(-c1 * a, n);
    DotAddScale(c0, t, -c1 * a, n, n);
    assert Dot(b, n) == -c1 * a;
    assert Dot(n, b) == Dot(b, n);
    assert Sub(b, Scale(-c1 * a, n)) == Scale(c0, t);
  }

  /** The position update reads the velocity already advanced by this
      sub-step, so the particle moves by `v*h + 3/2 * a*h*h`, where `v` is
      the velocity before the sub-step and `a = force / mass`. */
  lemma IntegrateUsesNewVelocity(h: real, mass: real, force: Vec3, p: Vec3, v: Vec3)
    requires mass != 0.0
    ensures var a := Div(force, mass);
            Integrate(h, mass, force, p, v) ==
              (Add(p, Add(Scale(h, v), Scale(3.0 / 2.0 * h * h, a))), Add(v, Scale(h, a)))
  {
    var a := Div(force, mass);
    var v' := Add(v, Scale(h, a));
    var p' := Add(p, Add(Scale(h, v'), Div(Scale(h * h, a), 2.0)));
    assert Integrate(h, mass, force, p, v) == (p', v');
    SecondOrderStep(h, p.x, v.x, a.x);
    SecondOrderStep(h, p.y, v.y, a.y);
    SecondOrderStep(h, p.z, v.z, a.z);
    assert p' == Add(p, Add(Scale(h, v), Scale(3.0 / 2.0 * h * h, a)));
  }

  lemma SecondOrderStep(h: real, p: real, v: real, a: real)
    ensures p + (h * (v + h * a) + h * h * a / 2.0) == p + (h * v + 3.0 / 2.0 * h * h * a)
  {
  }

  /** A single free particle of mass 1 at rest at the origin, under gravity
      (0, -9.8, 0) with dt = 1, one sub-step, no springs and no colliders,
      ends moving at (0, -9.8, 0) and, because the position update uses the
      new velocity, at (0, -14.7, 0). */
  lemma FallFromRest(vm: VMath)
    ensures var ph := Physics(1.0, 1, Vec3(0.0, -9.8, 0.0), (0.0, 0.0));
            var body := Body([1.0], [false], []);
            var st := ParticleState([Zero], [Zero], [Zero]);
            Fits(body, st) &&
            Simulated(vm, [], ph, body, 1, st) ==
              ParticleState([Vec3(0.0, -14.7, 0.0)], [Vec3(0.0, -9.8, 0.0)], [Vec3(0.0, -9.8, 0.0)])
  {
  }
}

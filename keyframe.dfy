/** Keyframe interpolation: the rigid frame of an animated mesh or surface at
    an integer tick, from a track of keytimes, translations and Euler angles. */
module Keyframe {
  import opened VecMath

  /** A keyframe track.  `translation[k]` and `rotation[k]` (Euler angles
      about x, y and z) are the pose at tick `keytimes[k]`; the interpolated
      pose is applied to `restFrame`. */
  datatype FrameAnimation = FrameAnimation(
    keytimes: seq<int>,
    translation: seq<Vec3>,
    rotation: seq<Vec3>,
    restFrame: Frame3)

  /** An interpolated pose: a translation and three Euler angles. */
  datatype Pose = Pose(translation: Vec3, rotation: Vec3)

  predicate Increasing(s: seq<int>) {
    forall i, j :: 0 <= i < j < |s| ==> s[i] < s[j]
  }

  /** At least two keytimes, and a pose for each. */
  predicate WellFormed(a: FrameAnimation) {
    |a.keytimes| >= 2 &&
    |a.translation| >= |a.keytimes| && |a.rotation| >= |a.keytimes|
  }

  /** Exactly the ticks the source can query: the scan steps over at least
      one keytime and stops before the last, and there are poses up to the
      keyframe after the interval it finds.  The keytimes may be in any
      order. */
  predicate TrackReady(a: FrameAnimation, time: int) {
    var n := Passed(a.keytimes, time);
    1 <= n < |a.keytimes| && n < |a.translation| && n < |a.rotation|
  }

  /** The number of keytimes the scan steps over before it stops: the
      longest prefix of `keytimes` whose entries are all at most `time`. */
  function Passed(keytimes: seq<int>, time: int): (n: nat)
    ensures n <= |keytimes|
    ensures forall j :: 0 <= j < n ==> keytimes[j] <= time
    ensures n < |keytimes| ==> time < keytimes[n]
  {
    if keytimes == [] || time < keytimes[0] then 0
    else 1 + Passed(keytimes[1..], time)
  }

  /** The interval search of the source: count keytimes until the first one
      after `time`, then step back by one.  Before the first keytime this
      gives -1; inside the track it brackets `time`. */
  method ScanInterval(keytimes: seq<int>, time: int) returns (interval: int)
    ensures interval == Passed(keytimes, time) - 1
    ensures interval == -1 <==> (|keytimes| == 0 || time < keytimes[0])
    ensures |keytimes| >= 2 &&
            keytimes[0] <= time < keytimes[|keytimes| - 1] ==>
              0 <= interval < |keytimes| - 1 &&
              keytimes[interval] <= time < keytimes[interval + 1]
  {
    interval := 0;
    while interval < |keytimes|
      invariant 0 <= interval <= |keytimes|
      invariant forall j :: 0 <= j < interval ==> keytimes[j] <= time
    {
      if time < keytimes[interval] {
        break;
      }
      interval := interval + 1;
    }
    interval := interval - 1;
  }

  /** Index of the keyframe that starts the interval containing `time`. */
  function Interval(a: FrameAnimation, time: int): (i: int)
    requires TrackReady(a, time)
    ensures 0 <= i < |a.keytimes| - 1
    ensures a.keytimes[i] <= time < a.keytimes[i + 1]
  {
    Passed(a.keytimes, time) - 1
  }

  /** `a * (1 - t) + b * t`. */
  function Lerp(a: real, b: real, t: real): real {
    a * (1.0 - t) + b * t
  }

  /** `a * (1 - t) + b * t` on vectors. */
  function LerpVec(a: Vec3, b: Vec3, t: real): Vec3 {
    Vec3(Lerp(a.x, b.x, t), Lerp(a.y, b.y, t), Lerp(a.z, b.z, t))
  }

  /** Position of `time` within interval `i`, as a fraction of its width. */
  function Fraction(a: FrameAnimation, time: int): real
    requires TrackReady(a, time)
  {
    var i := Interval(a, time);
    (time - a.keytimes[i]) as real / (a.keytimes[i + 1] - a.keytimes[i]) as real
  }

  /** The pose at `time`: translation and each Euler angle interpolated
      independently between the keyframes that bracket `time`. */
  function PoseAt(a: FrameAnimation, time: int): Pose
    requires TrackReady(a, time)
  {
    var i := Interval(a, time);
    var t := Fraction(a, time);
    var r0, r1 := a.rotation[i], a.rotation[i + 1];
    Pose(LerpVec(a.translation[i], a.translation[i + 1], t),
         Vec3(Lerp(r0.x, r1.x, t), Lerp(r0.y, r1.y, t), Lerp(r0.z, r1.z, t)))
  }

  /** translation * rotation_z * rotation_y * rotation_x, in that order. */
  function PoseMatrix(vm: VMath, p: Pose): Mat4 {
    var mt := vm.translationMatrix(p.translation);
    var mrz := vm.rotationMatrix(p.rotation.z, ZAxis);
    var mry := vm.rotationMatrix(p.rotation.y, YAxis);
    var mrx := vm.rotationMatrix(p.rotation.x, XAxis);
    vm.mul(vm.mul(vm.mul(mt, mrz), mry), mrx)
  }

  /** The rigid frame of the track at `time`. */
  function FrameAt(vm: VMath, a: FrameAnimation, time: int): Frame3
    requires TrackReady(a, time)
  {
    vm.transformFrame(PoseMatrix(vm, PoseAt(a, time)), a.restFrame)
  }

  /** animate_compute_frame: search the interval, blend the pose, and apply
      the composed matrix to the rest frame. */
  method ComputeFrame(vm: VMath, a: FrameAnimation, time: int) returns (f: Frame3)
    requires TrackReady(a, time)
    ensures f == FrameAt(vm, a, time)
  {
    var interval := ScanInterval(a.keytimes, time);
    assert interval == Interval(a, time);
    var t := (time - a.keytimes[interval]) as real /
             (a.keytimes[interval + 1] - a.keytimes[interval]) as real;
    assert t == Fraction(a, time);
    var r0, r1 := a.rotation[interval], a.rotation[interval + 1];
    var mt := vm.translationMatrix(LerpVec(a.translation[interval], a.translation[interval + 1], t));
    var mrz := vm.rotationMatrix(Lerp(r0.z, r1.z, t), ZAxis);
    var mry := vm.rotationMatrix(Lerp(r0.y, r1.y, t), YAxis);
    var mrx := vm.rotationMatrix(Lerp(r0.x, r1.x, t), XAxis);
    var m := vm.mul(vm.mul(vm.mul(mt, mrz), mry), mrx);
    f := vm.transformFrame(m, a.restFrame);
  }

  /** At a keytime of a strictly increasing track, the scan stops right
      after that keytime. */
  lemma {:induction false} PassedAtKeytime(keytimes: seq<int>, i: int)
    requires Increasing(keytimes) && 0 <= i < |keytimes|
    ensures Passed(keytimes, keytimes[i]) == i + 1
    decreases i
  {
    var rest := keytimes[1..];
    assert keytimes[0] <= keytimes[i];
    if i == 0 {
      if rest != [] {
        assert keytimes[0] < rest[0];
      }
    } else {
      assert rest[i - 1] == keytimes[i];
      PassedAtKeytime(rest, i - 1);
    }
  }

  /** The blend fraction lies in [0, 1). */
  lemma FractionInUnit(a: FrameAnimation, time: int)
    requires TrackReady(a, time)
    ensures 0.0 <= Fraction(a, time) < 1.0
  {
    var i := Interval(a, time);
    var num := (time - a.keytimes[i]) as real;
    var den := (a.keytimes[i + 1] - a.keytimes[i]) as real;
    assert 0.0 <= num < den;
    assert num / den < 1.0 by {
      assert num / den * den == num;
    }
  }

  /** On a track with a pose per keytime, every tick in [first keytime,
      last keytime) can be queried, whatever the order of the keytimes. */
  lemma {:induction false} InRangeIsReady(a: FrameAnimation, time: int)
    requires WellFormed(a) && a.keytimes[0] <= time < a.keytimes[|a.keytimes| - 1]
    ensures TrackReady(a, time)
  {
    assert Passed(a.keytimes, time) == 1 + Passed(a.keytimes[1..], time);
  }

  /** Interpolating exactly at a keytime (other than the last) of a strictly
      increasing track reproduces that keyframe's translation and Euler
      angles exactly. */
  lemma PoseAtKeytime(a: FrameAnimation, i: int)
    requires WellFormed(a) && Increasing(a.keytimes) && 0 <= i < |a.keytimes| - 1
    ensures TrackReady(a, a.keytimes[i])
    ensures PoseAt(a, a.keytimes[i]) == Pose(a.translation[i], a.rotation[i])
  {
    var kt := a.keytimes;
    assert kt[0] <= kt[i] < kt[|kt| - 1];
    PassedAtKeytime(kt, i);
    assert Interval(a, kt[i]) == i;
    assert Fraction(a, kt[i]) == 0.0;
  }

  /** `a * (1 - t) + b * t` lies between `a` and `b` for t in [0, 1]. */
  lemma LerpBetween(a: real, b: real, t: real)
    requires 0.0 <= t <= 1.0
    ensures Between(Lerp(a, b, t), a, b)
  {
    assert Lerp(a, b, t) == a + (b - a) * t;
    if a <= b {
      MulNonneg(b - a, t);
      MulNonneg(b - a, 1.0 - t);
    } else {
      MulNonneg(a - b, t);
      MulNonneg(a - b, 1.0 - t);
    }
  }

  lemma MulNonneg(x: real, y: real)
    requires 0.0 <= x && 0.0 <= y
    ensures 0.0 <= x * y
  {
  }

  predicate Between(v: real, a: real, b: real) {
    (a <= v <= b) || (b <= v <= a)
  }

  /** Every interpolated component lies between the values of the two
      keyframes that bracket `time`. */
  lemma PoseBetweenKeys(a: FrameAnimation, time: int)
    requires TrackReady(a, time)
    ensures var i, p := Interval(a, time), PoseAt(a, time);
            var t0, t1, r0, r1 := a.translation[i], a.translation[i + 1], a.rotation[i], a.rotation[i + 1];
            Between(p.translation.x, t0.x, t1.x) && Between(p.translation.y, t0.y, t1.y) &&
            Between(p.translation.z, t0.z, t1.z) &&
            Between(p.rotation.x, r0.x, r1.x) && Between(p.rotation.y, r0.y, r1.y) &&
            Between(p.rotation.z, r0.z, r1.z)
  {
    var i, t := Interval(a, time), Fraction(a, time);
    FractionInUnit(a, time);
    var t0, t1, r0, r1 := a.translation[i], a.translation[i + 1], a.rotation[i], a.rotation[i + 1];
    LerpBetween(t0.x, t1.x, t);
    LerpBetween(t0.y, t1.y, t);
    LerpBetween(t0.z, t1.z, t);
    LerpBetween(r0.x, r1.x, t);
    LerpBetween(r0.y, r1.y, t);
    LerpBetween(r0.z, r1.z, t);
  }

  /** A two-key track from (0,0,0) at tick 0 to (2,0,0) at tick 2 is at
      (1,0,0) at tick 1. */
  lemma MidpointExample(rest: Frame3)
    ensures var a := FrameAnimation([0, 2], [Zero, Vec3(2.0, 0.0, 0.0)], [Zero, Zero], rest);
            TrackReady(a, 1) && PoseAt(a, 1).translation == Vec3(1.0, 0.0, 0.0)
  {
    var a := FrameAnimation([0, 2], [Zero, Vec3(2.0, 0.0, 0.0)], [Zero, Zero], rest);
    assert a.keytimes[1..] == [2];
    assert Passed(a.keytimes, 1) == 1;
    assert Fraction(a, 1) == 0.5;
  }

  /** The keytimes need not be ordered: in the track [0, 5, 3, 10] the scan
      stops at 5, so tick 4 falls in the first interval at fraction 0.8. */
  lemma UnorderedTrackExample(rest: Frame3)
    ensures var a := FrameAnimation([0, 5, 3, 10], [Zero, Zero, Zero, Zero], [Zero, Zero, Zero, Zero], rest);
            TrackReady(a, 4) && Interval(a, 4) == 0 && Fraction(a, 4) == 0.8
  {
    var a := FrameAnimation([0, 5, 3, 10], [Zero, Zero, Zero, Zero], [Zero, Zero, Zero, Zero], rest);
    assert a.keytimes[1..] == [5, 3, 10];
    assert Passed(a.keytimes, 4) == 1;
  }

  /** An unordered track can be queried outside [first, last): in the track
      [0, 10, 5] the scan stops at 10, so tick 7 falls in the first interval
      at fraction 0.7. */
  lemma BeyondLastKeytimeExample(rest: Frame3)
    ensures var a := FrameAnimation([0, 10, 5], [Zero, Zero, Zero], [Zero, Zero, Zero], rest);
            !(7 < a.keytimes[|a.keytimes| - 1]) &&
            TrackReady(a, 7) && Interval(a, 7) == 0 && Fraction(a, 7) == 0.7
  {
    var a := FrameAnimation([0, 10, 5], [Zero, Zero, Zero], [Zero, Zero, Zero], rest);
    assert a.keytimes[1..] == [10, 5];
    assert Passed(a.keytimes, 7) == 1;
  }
}

/** Linear blend skinning: the deformed position and normal of each vertex as
    a weighted sum, over a fixed number of bone slots, of the vertex's rest
    position and normal carried by each bone's transform. */
module Skinning {
  import opened VecMath

  /** Hard limit on the number of bones that influence one vertex. */
  const BoneSlots: nat := 4

  /** Per-vertex rest geometry and bone influences, and for each tick the
      transform of each bone.  A slot whose bone id is negative is unused. */
  datatype SkinningData = SkinningData(
    restPos: seq<Vec3>,
    restNorm: seq<Vec3>,
    boneIds: seq<seq<int>>,
    boneWeights: seq<seq<real>>,
    boneXforms: seq<seq<Mat4>>)

  /** The first `n` slots exist and every used one names a bone of `xforms`. */
  predicate SlotsFit(ids: seq<int>, ws: seq<real>, xforms: seq<Mat4>, n: nat) {
    n <= |ids| && n <= |ws| &&
    forall j :: 0 <= j < n && ids[j] >= 0 ==> ids[j] < |xforms|
  }

  /** Weighted sum over the first `n` slots, in slot order, of
      `ws[j] * apply(xforms[ids[j]], rest)`; slots with a negative id are
      skipped. */
  function Blend(apply: (Mat4, Vec3) -> Vec3, ids: seq<int>, ws: seq<real>,
                 xforms: seq<Mat4>, rest: Vec3, n: nat): Vec3
    requires SlotsFit(ids, ws, xforms, n)
  {
    if n == 0 then Zero
    else
      var acc := Blend(apply, ids, ws, xforms, rest, n - 1);
      if ids[n - 1] < 0 then acc
      else Add(acc, Scale(ws[n - 1], apply(xforms[ids[n - 1]], rest)))
  }

  /** The bone transforms of tick `time`; no bones when the table has no
      such row (the source then throws on the first used slot). */
  function BonesAt(sk: SkinningData, time: int): seq<Mat4> {
    if 0 <= time < |sk.boneXforms| then sk.boneXforms[time] else []
  }

  /** What skinning `nPos` vertices at `time` reads: rest data, weights and
      ids for each vertex, BoneSlots slots each, at least `nPos` normals to
      write, and for every used slot a bone at `time`. */
  predicate Ready(sk: SkinningData, nPos: nat, nNorm: nat, time: int) {
    nPos <= |sk.restPos| && nPos <= |sk.restNorm| && nPos <= nNorm &&
    nPos <= |sk.boneIds| && nPos <= |sk.boneWeights| &&
    (forall i :: 0 <= i < nPos ==> |sk.boneIds[i]| >= BoneSlots && |sk.boneWeights[i]| >= BoneSlots) &&
    forall i, j :: 0 <= i < nPos && 0 <= j < BoneSlots && sk.boneIds[i][j] >= 0 ==>
      sk.boneIds[i][j] < |BonesAt(sk, time)|
  }

  lemma ReadySlots(sk: SkinningData, nPos: nat, nNorm: nat, time: int, i: int)
    requires Ready(sk, nPos, nNorm, time) && 0 <= i < nPos
    ensures SlotsFit(sk.boneIds[i], sk.boneWeights[i], BonesAt(sk, time), BoneSlots)
  {
  }

  /** Deformed position of vertex `i` at `time`. */
  function SkinnedPos(vm: VMath, sk: SkinningData, nPos: nat, nNorm: nat, time: int, i: int): Vec3
    requires Ready(sk, nPos, nNorm, time) && 0 <= i < nPos
  {
    ReadySlots(sk, nPos, nNorm, time, i);
    Blend(vm.transformPoint, sk.boneIds[i], sk.boneWeights[i], BonesAt(sk, time), sk.restPos[i], BoneSlots)
  }

  /** Deformed normal of vertex `i` at `time`: the normalized blend. */
  function SkinnedNorm(vm: VMath, sk: SkinningData, nPos: nat, nNorm: nat, time: int, i: int): Vec3
    requires Ready(sk, nPos, nNorm, time) && 0 <= i < nPos
  {
    ReadySlots(sk, nPos, nNorm, time, i);
    vm.normalize(Blend(vm.transformNormal, sk.boneIds[i], sk.boneWeights[i], BonesAt(sk, time),
                       sk.restNorm[i], BoneSlots))
  }

  /** Unused slots contribute nothing: two slot tables that agree on which
      slots are used, and on the bone and weight of every used slot, blend
      to the same vector whatever the unused slots hold. */
  lemma {:induction false} BlendIgnoresUnusedSlots(apply: (Mat4, Vec3) -> Vec3,
      ids: seq<int>, ws: seq<real>, ids': seq<int>, ws': seq<real>,
      xforms: seq<Mat4>, rest: Vec3, n: nat)
    requires SlotsFit(ids, ws, xforms, n) && SlotsFit(ids', ws', xforms, n)
    requires forall j :: 0 <= j < n ==> (ids[j] < 0 <==> ids'[j] < 0)
    requires forall j :: 0 <= j < n && ids[j] >= 0 ==> ids'[j] == ids[j] && ws'[j] == ws[j]
    ensures Blend(apply, ids, ws, xforms, rest, n) == Blend(apply, ids', ws', xforms, rest, n)
  {
    if n > 0 {
      BlendIgnoresUnusedSlots(apply, ids, ws, ids', ws', xforms, rest, n - 1);
    }
  }

  /** A vertex whose slots are all unused blends to the zero vector. */
  lemma {:induction false} BlendNoBones(apply: (Mat4, Vec3) -> Vec3, ids: seq<int>, ws: seq<real>,
      xforms: seq<Mat4>, rest: Vec3, n: nat)
    requires SlotsFit(ids, ws, xforms, n)
    requires forall j :: 0 <= j < n ==> ids[j] < 0
    ensures Blend(apply, ids, ws, xforms, rest, n) == Zero
  {
    if n > 0 {
      BlendNoBones(apply, ids, ws, xforms, rest, n - 1);
    }
  }

  /** A vertex bound, in any one slot `k`, to a single bone with weight 1
      whose transform leaves the rest value fixed keeps its rest value
      exactly. */
  lemma {:induction false} BlendSingleIdentityBone(apply: (Mat4, Vec3) -> Vec3, ids: seq<int>, ws: seq<real>,
      xforms: seq<Mat4>, rest: Vec3, n: nat, k: int)
    requires SlotsFit(ids, ws, xforms, n) && 0 <= k < n
    requires ids[k] >= 0 && ws[k] == 1.0 && apply(xforms[ids[k]], rest) == rest
    requires forall j :: 0 <= j < n && j != k ==> ids[j] < 0
    ensures Blend(apply, ids, ws, xforms, rest, n) == rest
  {
    if k < n - 1 {
      BlendSingleIdentityBone(apply, ids, ws, xforms, rest, n - 1, k);
    } else {
      BlendNoBones(apply, ids, ws, xforms, rest, n - 1);
    }
  }
}

/**
 * Bone registry and per-vertex skin slots, as filled by the model loader's
 * extractBoneWeightForVertices.
 *
 * Each vertex has four (bone ID, weight) slots; a slot whose ID is negative
 * is free. The functions here are the specification the loader's loops are
 * proved against: `RegistryAfter` is the bone table after the first b bones of
 * a mesh, `SkinAfter` the slot buffers after the same bones.
 */
module Skinning {
  import opened Matrices

  datatype Option<T> = None | Some(value: T)

  /** At most this many bones of one mesh are read. */
  const MaxBonesPerMesh: nat := 100

  /** glm::ivec4 holding the bone IDs of one vertex. */
  type IVec4 = s: seq<int> | |s| == 4 witness [-1, -1, -1, -1]

  /** glm::vec4 holding the weights of one vertex. */
  type Vec4 = s: seq<real> | |s| == 4 witness [0.0, 0.0, 0.0, 0.0]

  /** The initial slots of every vertex: no bone, no weight. */
  const NoBones: IVec4 := [-1, -1, -1, -1]
  const NoWeights: Vec4 := [0.0, 0.0, 0.0, 0.0]

  /** aiVertexWeight: the influence of one bone on one vertex. */
  datatype AiVertexWeight = AiVertexWeight(vertexId: nat, weight: real)

  /** aiBone: a named bone with its offset matrix and the vertices it moves. */
  datatype AiBone = AiBone(name: string, offsetMatrix: AiMatrix4x4, weights: seq<AiVertexWeight>)

  /** BoneProps: one entry of the loader's bone table; its index is the bone ID. */
  datatype BoneProps = BoneProps(name: string, offset: GlmMat4)

  /** The per-vertex bone ID and weight buffers of one mesh. */
  datatype SkinSlots = SkinSlots(ids: seq<IVec4>, weights: seq<Vec4>)

  /** Number of bones of a mesh that are read: the first min(|bones|, 100). */
  function BonesProcessed(bones: seq<AiBone>): (n: nat)
    ensures n <= |bones| && n <= MaxBonesPerMesh
    ensures n == |bones| || n == MaxBonesPerMesh
  {
    if |bones| > MaxBonesPerMesh then MaxBonesPerMesh else |bones|
  }

  /** The table entry registered for a bone seen for the first time. */
  function EntryFor(bone: AiBone): BoneProps {
    BoneProps(bone.name, AiMatrix4x4ToGlm(bone.offsetMatrix))
  }

  // ---------------------------------------------------------------------------
  // One vertex

  /** The lowest slot whose bone ID is negative, if any. */
  function FirstFreeSlot(ids: IVec4): (r: Option<nat>)
    ensures r.Some? ==> r.value < 4
  {
    if ids[0] < 0 then Some(0)
    else if ids[1] < 0 then Some(1)
    else if ids[2] < 0 then Some(2)
    else if ids[3] < 0 then Some(3)
    else None
  }

  /** True when slot j is the lowest free slot of `ids`. */
  predicate IsFirstFree(ids: IVec4, j: nat)
    requires j < 4
  {
    ids[j] < 0 && forall i | 0 <= i < j :: ids[i] >= 0
  }

  /**
   * Records that bone `boneId` moves this vertex with `weight`: the lowest free
   * slot takes both; every other slot keeps its ID and weight. When all four
   * slots are taken the influence is dropped.
   */
  function FillSlot(ids: IVec4, ws: Vec4, boneId: int, weight: real): (IVec4, Vec4) {
    match FirstFreeSlot(ids)
    case Some(k) => (ids[k := boneId], ws[k := weight])
    case None => (ids, ws)
  }

  /** FirstFreeSlot finds the lowest free slot, and None means every slot is taken. */
  lemma FirstFreeSlotIsFirst(ids: IVec4, j: nat)
    requires j < 4
    ensures FirstFreeSlot(ids) == Some(j) <==> IsFirstFree(ids, j)
    ensures FirstFreeSlot(ids) == None <==> (ids[0] >= 0 && ids[1] >= 0 && ids[2] >= 0 && ids[3] >= 0)
  {
  }

  /** Slot j takes the influence exactly when it is the lowest free slot; otherwise it keeps its ID and weight. */
  lemma FillSlotSlot(ids: IVec4, ws: Vec4, boneId: int, weight: real, j: nat)
    requires j < 4
    ensures var r := FillSlot(ids, ws, boneId, weight);
      if IsFirstFree(ids, j) then r.0[j] == boneId && r.1[j] == weight
      else r.0[j] == ids[j] && r.1[j] == ws[j]
  {
    FirstFreeSlotIsFirst(ids, j);
  }

  /** A filled slot is never overwritten. */
  lemma FillSlotKeepsFilled(ids: IVec4, ws: Vec4, boneId: int, weight: real, j: nat)
    requires j < 4 && ids[j] >= 0
    ensures FillSlot(ids, ws, boneId, weight).0[j] == ids[j]
    ensures FillSlot(ids, ws, boneId, weight).1[j] == ws[j]
  {
  }

  /** With all four slots taken, the influence is dropped (first come, not most influential). */
  lemma FillSlotDropsWhenFull(ids: IVec4, ws: Vec4, boneId: int, weight: real)
    requires forall j | 0 <= j < 4 :: ids[j] >= 0
    ensures FillSlot(ids, ws, boneId, weight) == (ids, ws)
  {
  }

  /** Number of taken slots. */
  function Filled(ids: IVec4): (n: nat)
    ensures n <= 4
  {
    (if ids[0] >= 0 then 1 else 0) + (if ids[1] >= 0 then 1 else 0)
    + (if ids[2] >= 0 then 1 else 0) + (if ids[3] >= 0 then 1 else 0)
  }

  /** A non-negative bone ID takes exactly one more slot, unless the vertex is full. */
  lemma FillSlotCounts(ids: IVec4, ws: Vec4, boneId: int, weight: real)
    requires boneId >= 0
    ensures Filled(FillSlot(ids, ws, boneId, weight).0) == if Filled(ids) == 4 then 4 else Filled(ids) + 1
  {
  }

  /** The taken slots form a prefix: slots 0..k-1 are taken and k..3 are free. */
  predicate PackedSlots(ids: IVec4) {
    forall i, j | 0 <= i < j < 4 :: ids[i] < 0 ==> ids[j] < 0
  }

  /** Filling with a non-negative ID keeps the taken slots packed at the front. */
  lemma FillSlotKeepsPacked(ids: IVec4, ws: Vec4, boneId: int, weight: real)
    requires boneId >= 0 && PackedSlots(ids)
    ensures PackedSlots(FillSlot(ids, ws, boneId, weight).0)
  {
  }

  // ---------------------------------------------------------------------------
  // Bone table

  /** Lowest table index whose name is `name`, as the lookup loop finds it. */
  function FindBone(reg: seq<BoneProps>, name: string): (r: Option<nat>)
    ensures r.Some? ==>
              r.value < |reg| && reg[r.value].name == name
              && forall i | 0 <= i < r.value :: reg[i].name != name
    ensures r.None? ==> forall i | 0 <= i < |reg| :: reg[i].name != name
    decreases |reg|
  {
    if |reg| == 0 then None
    else match FindBone(reg[..|reg| - 1], name)
      case Some(i) => Some(i)
      case None => if reg[|reg| - 1].name == name then Some(|reg| - 1) else None
  }

  /**
   * The bone ID given to bones[b] when the table reads `reg`: a bone whose
   * index is at least the table size is appended and gets its own index;
   * any other bone is looked up by name. A failed lookup leaves -1.
   */
  function BoneIdFor(reg: seq<BoneProps>, bones: seq<AiBone>, b: nat): int
    requires b < |bones|
  {
    if b >= |reg| then b
    else match FindBone(reg, bones[b].name)
      case Some(i) => i
      case None => -1
  }

  /** The bone table after the first b bones of a mesh were read. */
  function RegistryAfter(reg: seq<BoneProps>, bones: seq<AiBone>, b: nat): seq<BoneProps>
    requires b <= |bones|
    decreases b
  {
    if b == 0 then reg
    else
      var r := RegistryAfter(reg, bones, b - 1);
      if b - 1 >= |r| then r + [EntryFor(bones[b - 1])] else r
  }

  /**
   * The table grows to max(|reg|, b): its old entries are untouched, and the
   * entry at every new index k is the bone with index k.
   */
  lemma {:induction false} RegistryAfterShape(reg: seq<BoneProps>, bones: seq<AiBone>, b: nat)
    requires b <= |bones|
    ensures |RegistryAfter(reg, bones, b)| == if b <= |reg| then |reg| else b
    ensures RegistryAfter(reg, bones, b)[..|reg|] == reg
    ensures forall k | |reg| <= k < |RegistryAfter(reg, bones, b)| ::
      RegistryAfter(reg, bones, b)[k] == EntryFor(bones[k])
  {
    if b > 0 {
      RegistryAfterShape(reg, bones, b - 1);
    }
  }

  /** Every bone with an index below the table size names an existing entry. */
  predicate BoneNamesResolve(reg: seq<BoneProps>, bones: seq<AiBone>) {
    forall b | 0 <= b < |bones| && b < |reg| && b < MaxBonesPerMesh ::
      exists i | 0 <= i < |reg| :: reg[i].name == bones[b].name
  }

  /**
   * When the names resolve, every bone read gets an ID that indexes the final
   * table, and the entry at that index carries the bone's name.
   */
  lemma BoneIdNamesBone(reg: seq<BoneProps>, bones: seq<AiBone>, b: nat)
    requires BoneNamesResolve(reg, bones)
    requires b < BonesProcessed(bones)
    ensures var id := BoneIdFor(RegistryAfter(reg, bones, b), bones, b);
      var final := RegistryAfter(reg, bones, BonesProcessed(bones));
      0 <= id < |final| && final[id].name == bones[b].name
  {
    var n := BonesProcessed(bones);
    RegistryAfterShape(reg, bones, b);
    RegistryAfterShape(reg, bones, n);
    var r := RegistryAfter(reg, bones, b);
    var final := RegistryAfter(reg, bones, n);
    if b < |reg| {
      assert r == reg by { assert r == r[..|reg|]; }
      var i :| 0 <= i < |reg| && reg[i].name == bones[b].name;
      assert FindBone(reg, bones[b].name).Some?;
      assert final[..|reg|] == reg;
      var id := FindBone(reg, bones[b].name).value;
      assert final[id] == final[..|reg|][id];
    } else {
      assert |r| == b;
    }
  }

  // ---------------------------------------------------------------------------
  // Slot buffers

  /** Every weight of `vws` targets a vertex below n. */
  predicate VertexIdsBelow(vws: seq<AiVertexWeight>, n: nat) {
    forall k | 0 <= k < |vws| :: vws[k].vertexId < n
  }

  /** Both buffers have an entry for every vertex the weights name. */
  predicate Covers(s: SkinSlots, vws: seq<AiVertexWeight>) {
    VertexIdsBelow(vws, |s.ids|) && VertexIdsBelow(vws, |s.weights|)
  }

  /** One influence applied to the buffers at its vertex. */
  function AddInfluence(s: SkinSlots, w: AiVertexWeight, boneId: int): (r: SkinSlots)
    requires w.vertexId < |s.ids| && w.vertexId < |s.weights|
    ensures |r.ids| == |s.ids| && |r.weights| == |s.weights|
    ensures (r.ids[w.vertexId], r.weights[w.vertexId])
      == FillSlot(s.ids[w.vertexId], s.weights[w.vertexId], boneId, w.weight)
    ensures r.ids == s.ids[w.vertexId := r.ids[w.vertexId]]
    ensures r.weights == s.weights[w.vertexId := r.weights[w.vertexId]]
  {
    var v := w.vertexId;
    var (a, b) := FillSlot(s.ids[v], s.weights[v], boneId, w.weight);
    SkinSlots(s.ids[v := a], s.weights[v := b])
  }

  /** The buffers after the weights of one bone, applied in order. */
  function ApplyBoneWeights(s: SkinSlots, vws: seq<AiVertexWeight>, boneId: int): (r: SkinSlots)
    requires Covers(s, vws)
    ensures |r.ids| == |s.ids| && |r.weights| == |s.weights|
    decreases |vws|
  {
    if vws == [] then s
    else AddInfluence(ApplyBoneWeights(s, vws[..|vws| - 1], boneId), vws[|vws| - 1], boneId)
  }

  /** Weights of every bone read target existing vertices. */
  predicate BonesCover(s: SkinSlots, bones: seq<AiBone>) {
    forall b | 0 <= b < |bones| && b < MaxBonesPerMesh :: Covers(s, bones[b].weights)
  }

  /** The buffers after the first b bones of a mesh, with the table starting at `reg`. */
  function SkinAfter(s: SkinSlots, reg: seq<BoneProps>, bones: seq<AiBone>, b: nat): (r: SkinSlots)
    requires b <= |bones| && b <= MaxBonesPerMesh && BonesCover(s, bones)
    ensures |r.ids| == |s.ids| && |r.weights| == |s.weights|
    decreases b
  {
    if b == 0 then s
    else
      var prev := SkinAfter(s, reg, bones, b - 1);
      assert Covers(prev, bones[b - 1].weights) by {
        assert Covers(s, bones[b - 1].weights);
      }
      ApplyBoneWeights(prev, bones[b - 1].weights, BoneIdFor(RegistryAfter(reg, bones, b - 1), bones, b - 1))
  }

  /** One more bone read: its weights applied, under the ID the table gives it at that point. */
  lemma SkinAfterStep(s: SkinSlots, reg: seq<BoneProps>, bones: seq<AiBone>, b: nat)
    requires b < |bones| && b < MaxBonesPerMesh && BonesCover(s, bones)
    ensures Covers(SkinAfter(s, reg, bones, b), bones[b].weights)
    ensures SkinAfter(s, reg, bones, b + 1)
      == ApplyBoneWeights(SkinAfter(s, reg, bones, b), bones[b].weights, BoneIdFor(RegistryAfter(reg, bones, b), bones, b))
  {
    assert Covers(s, bones[b].weights);
  }

  /** Vertex u is the target of one of the weights. */
  predicate Targeted(vws: seq<AiVertexWeight>, u: nat) {
    exists k | 0 <= k < |vws| :: vws[k].vertexId == u
  }

  /** Only the vertices a bone names change; every other vertex keeps its slots. */
  lemma {:induction false} ApplyBoneWeightsFrame(s: SkinSlots, vws: seq<AiVertexWeight>, boneId: int, u: nat)
    requires Covers(s, vws) && u < |s.ids| && u < |s.weights| && !Targeted(vws, u)
    ensures ApplyBoneWeights(s, vws, boneId).ids[u] == s.ids[u]
    ensures ApplyBoneWeights(s, vws, boneId).weights[u] == s.weights[u]
    decreases |vws|
  {
    if vws != [] {
      var init := vws[..|vws| - 1];
      assert !Targeted(init, u) by {
        forall k | 0 <= k < |init| ensures init[k].vertexId != u {
          assert init[k] == vws[k];
        }
      }
      assert Covers(s, init) by {
        forall k | 0 <= k < |init| ensures init[k] == vws[k] { }
      }
      ApplyBoneWeightsFrame(s, init, boneId, u);
      assert vws[|vws| - 1].vertexId != u;
    }
  }

  /** Slot j of vertex u is taken (holds a non-negative bone ID). */
  predicate SlotTaken(s: SkinSlots, u: nat, j: nat)
    requires u < |s.ids| && j < 4
  {
    s.ids[u][j] >= 0
  }

  /** A taken slot keeps its ID and weight through the weights of one bone. */
  lemma {:induction false} ApplyBoneWeightsKeepsTaken(s: SkinSlots, vws: seq<AiVertexWeight>, boneId: int, u: nat, j: nat)
    requires Covers(s, vws) && u < |s.ids| && u < |s.weights| && j < 4 && SlotTaken(s, u, j)
    ensures ApplyBoneWeights(s, vws, boneId).ids[u][j] == s.ids[u][j]
    ensures ApplyBoneWeights(s, vws, boneId).weights[u][j] == s.weights[u][j]
    decreases |vws|
  {
    if vws != [] {
      var init := vws[..|vws| - 1];
      assert Covers(s, init) by {
        forall k | 0 <= k < |init| ensures init[k] == vws[k] { }
      }
      ApplyBoneWeightsKeepsTaken(s, init, boneId, u, j);
      var p := ApplyBoneWeights(s, init, boneId);
      var w := vws[|vws| - 1];
      if w.vertexId == u {
        FillSlotKeepsFilled(p.ids[u], p.weights[u], boneId, w.weight, j);
      }
    }
  }

  /** Every slot holds -1 (free) or a bone ID below n. */
  predicate IdsBelow(s: SkinSlots, n: nat) {
    forall u, j | 0 <= u < |s.ids| && 0 <= j < 4 :: -1 <= s.ids[u][j] < n
  }

  /** Applying a bone whose ID is below n keeps every slot at -1 or below n. */
  lemma {:induction false} ApplyBoneWeightsKeepsIdsBelow(s: SkinSlots, vws: seq<AiVertexWeight>, boneId: int, n: nat)
    requires Covers(s, vws) && IdsBelow(s, n) && 0 <= boneId < n
    ensures IdsBelow(ApplyBoneWeights(s, vws, boneId), n)
    decreases |vws|
  {
    if vws != [] {
      var init := vws[..|vws| - 1];
      assert Covers(s, init) by {
        forall k | 0 <= k < |init| ensures init[k] == vws[k] { }
      }
      ApplyBoneWeightsKeepsIdsBelow(s, init, boneId, n);
    }
  }

  /**
   * After the bones of a mesh are read, every slot is free or holds the ID of
   * an entry of the final table, so the shader's boneTransforms[id] lookup is
   * in range.
   */
  lemma {:induction false} SkinAfterIdsIndexRegistry(s: SkinSlots, reg: seq<BoneProps>, bones: seq<AiBone>, b: nat)
    requires BoneNamesResolve(reg, bones) && BonesCover(s, bones)
    requires b <= BonesProcessed(bones)
    requires IdsBelow(s, |RegistryAfter(reg, bones, BonesProcessed(bones))|)
    ensures IdsBelow(SkinAfter(s, reg, bones, b), |RegistryAfter(reg, bones, BonesProcessed(bones))|)
    decreases b
  {
    if b > 0 {
      SkinAfterIdsIndexRegistry(s, reg, bones, b - 1);
      BoneIdNamesBone(reg, bones, b - 1);
      var prev := SkinAfter(s, reg, bones, b - 1);
      assert Covers(prev, bones[b - 1].weights) by {
        assert Covers(s, bones[b - 1].weights);
      }
      ApplyBoneWeightsKeepsIdsBelow(prev, bones[b - 1].weights,
        BoneIdFor(RegistryAfter(reg, bones, b - 1), bones, b - 1),
        |RegistryAfter(reg, bones, BonesProcessed(bones))|);
    }
  }

  /** The initial buffers of a mesh with n vertices. */
  function Unassigned(n: nat): (s: SkinSlots)
    ensures |s.ids| == n && |s.weights| == n
    ensures IdsBelow(s, 0)
  {
    SkinSlots(seq(n, _ => NoBones), seq(n, _ => NoWeights))
  }
}

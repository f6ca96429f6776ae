/**
 * The model loader: walks an imported scene, turns each mesh into index and
 * skin buffers, keeps the bone table shared by all meshes, and records one
 * texture handle per mesh for each of four texture roles.
 *
 * The importer's scene (aiScene, aiNode, aiMesh, aiMaterial) is given as plain
 * data. `Model` keeps the loader's state in its fields; its methods follow the
 * loader's loops and are proved against `ImportAll`, the specification of a
 * whole import, whose properties are the lemmas at the end.
 */
module ModelLoader {
  import opened Matrices
  import opened Skinning

  /** aiMesh, reduced to what the loader's logic reads. */
  datatype AiMesh = AiMesh(numVertices: nat, faces: seq<seq<nat>>, bones: seq<AiBone>, materialIndex: nat)

  /** The aiTextureType values the loader asks for. */
  datatype AiTextureType = TextureDiffuse | TextureSpecular | TextureHeight | TextureAmbient

  /**
   * aiMaterial: for each texture type, the handles that loading its textures
   * yields, in the material's order (the file loading itself is outside the model).
   */
  datatype AiMaterial = AiMaterial(textures: map<AiTextureType, seq<nat>>)

  /** aiNode: indices into the scene's mesh list, and child nodes. */
  datatype AiNode = AiNode(meshes: seq<nat>, children: seq<AiNode>)

  datatype AiScene = AiScene(meshes: seq<AiMesh>, materials: seq<AiMaterial>, root: AiNode)

  /** Mesh: the buffers the loader produces for one aiMesh. */
  datatype Mesh = Mesh(boneIDs: seq<IVec4>, weights: seq<Vec4>, indices: seq<nat>)

  /** aiMaterial::GetTextureCount */
  function TextureCount(mat: AiMaterial, kind: AiTextureType): nat {
    if kind in mat.textures then |mat.textures[kind]| else 0
  }

  /**
   * loadMaterialTextures: the handle of the first texture of that type, or the
   * sentinel -1 when the material has none. Later textures are ignored.
   */
  function LoadMaterialTextures(mat: AiMaterial, kind: AiTextureType): (id: int)
    ensures id >= 0 <==> TextureCount(mat, kind) > 0
    ensures id >= 0 ==> id == mat.textures[kind][0]
  {
    if TextureCount(mat, kind) == 0 then -1 else mat.textures[kind][0]
  }

  // ---------------------------------------------------------------------------
  // Indices

  /** The face index lists joined in face order. */
  function Flatten(faces: seq<seq<nat>>): seq<nat>
    decreases |faces|
  {
    if faces == [] then [] else Flatten(faces[..|faces| - 1]) + faces[|faces| - 1]
  }

  /** Joining distributes over concatenation of face lists. */
  lemma {:induction false} FlattenAppend(a: seq<seq<nat>>, b: seq<seq<nat>>)
    ensures Flatten(a + b) == Flatten(a) + Flatten(b)
    decreases |b|
  {
    if b != [] {
      var b' := b[..|b| - 1];
      assert (a + b)[..|a + b| - 1] == a + b';
      FlattenAppend(a, b');
    } else {
      assert a + b == a;
    }
  }

  /** The importer triangulates; with three indices per face there are 3·|faces| indices. */
  lemma {:induction false} TriangleIndexCount(faces: seq<seq<nat>>)
    requires forall f | 0 <= f < |faces| :: |faces[f]| == 3
    ensures |Flatten(faces)| == 3 * |faces|
    decreases |faces|
  {
    if faces != [] {
      TriangleIndexCount(faces[..|faces| - 1]);
    }
  }

  // ---------------------------------------------------------------------------
  // Specification of one mesh and of a whole import

  /** Every weight of every bone read names a vertex of the mesh. */
  predicate WeightsInRange(mesh: AiMesh) {
    forall b | 0 <= b < |mesh.bones| && b < MaxBonesPerMesh :: VertexIdsBelow(mesh.bones[b].weights, mesh.numVertices)
  }

  predicate MeshWellFormed(mesh: AiMesh, numMaterials: nat) {
    mesh.materialIndex < numMaterials && WeightsInRange(mesh)
  }

  predicate SceneWellFormed(scene: AiScene) {
    forall k | 0 <= k < |scene.meshes| :: MeshWellFormed(scene.meshes[k], |scene.materials|)
  }

  /** The mesh processMesh returns when the bone table reads `reg`. */
  function ProcessedMesh(reg: seq<BoneProps>, mesh: AiMesh): Mesh
    requires WeightsInRange(mesh)
  {
    var s := Unassigned(mesh.numVertices);
    assert BonesCover(s, mesh.bones);
    var skin := SkinAfter(s, reg, mesh.bones, BonesProcessed(mesh.bones));
    Mesh(skin.ids, skin.weights, Flatten(mesh.faces))
  }

  /** The loader's state: the Model fields the import changes. */
  datatype ImportState = ImportState(
    meshes: seq<Mesh>,
    boneProps: seq<BoneProps>,
    diffuseMaps: seq<int>,
    specularMaps: seq<int>,
    normalMaps: seq<int>,
    heightMaps: seq<int>)

  const EmptyImport := ImportState([], [], [], [], [], [])

  /**
   * One mesh of the scene processed: its buffers appended, the bone table
   * extended, and one handle pushed on each texture list (normal maps come
   * from the HEIGHT texture type, height maps from AMBIENT).
   */
  function ImportMesh(st: ImportState, scene: AiScene, k: nat): ImportState
    requires SceneWellFormed(scene) && k < |scene.meshes|
  {
    var mesh := scene.meshes[k];
    var mat := scene.materials[mesh.materialIndex];
    ImportState(
      st.meshes + [ProcessedMesh(st.boneProps, mesh)],
      RegistryAfter(st.boneProps, mesh.bones, BonesProcessed(mesh.bones)),
      st.diffuseMaps + [LoadMaterialTextures(mat, TextureDiffuse)],
      st.specularMaps + [LoadMaterialTextures(mat, TextureSpecular)],
      st.normalMaps + [LoadMaterialTextures(mat, TextureHeight)],
      st.heightMaps + [LoadMaterialTextures(mat, TextureAmbient)])
  }

  predicate IndicesIn(order: seq<nat>, n: nat) {
    forall j | 0 <= j < |order| :: order[j] < n
  }

  /**
   * The import of the meshes `order` can run without the bone lookup failing:
   * every index names a scene mesh, and each mesh's bone names resolve against
   * the table as the earlier meshes left it.
   */
  predicate ImportResolvable(st: ImportState, scene: AiScene, order: seq<nat>)
    requires SceneWellFormed(scene)
    decreases |order|
  {
    && IndicesIn(order, |scene.meshes|)
    && (order == [] ||
        (&& BoneNamesResolve(st.boneProps, scene.meshes[order[0]].bones)
         && ImportResolvable(ImportMesh(st, scene, order[0]), scene, order[1..])))
  }

  /** The state after processing the meshes `order`, in that order. */
  function ImportAll(st: ImportState, scene: AiScene, order: seq<nat>): ImportState
    requires SceneWellFormed(scene) && IndicesIn(order, |scene.meshes|)
    decreases |order|
  {
    if order == [] then st
    else
      assert IndicesIn(order[1..], |scene.meshes|) by {
        assert forall j | 0 <= j < |order[1..]| :: order[1..][j] == order[j + 1];
      }
      ImportAll(ImportMesh(st, scene, order[0]), scene, order[1..])
  }

  /** Importing a non-empty order is importing its first mesh, then the rest. */
  lemma ImportFirst(st: ImportState, scene: AiScene, order: seq<nat>, rest: seq<nat>)
    requires SceneWellFormed(scene) && ImportResolvable(st, scene, order)
    requires order != [] && rest == order[1..]
    ensures order[0] < |scene.meshes| && BoneNamesResolve(st.boneProps, scene.meshes[order[0]].bones)
    ensures ImportResolvable(ImportMesh(st, scene, order[0]), scene, rest)
    ensures ImportAll(st, scene, order) == ImportAll(ImportMesh(st, scene, order[0]), scene, rest)
  {
  }

  /** Importing a + b is importing a, then b from where a left off. */
  lemma {:induction false} ImportAppend(st: ImportState, scene: AiScene, a: seq<nat>, b: seq<nat>)
    requires SceneWellFormed(scene) && ImportResolvable(st, scene, a + b)
    ensures ImportResolvable(st, scene, a)
    ensures ImportResolvable(ImportAll(st, scene, a), scene, b)
    ensures ImportAll(st, scene, a + b) == ImportAll(ImportAll(st, scene, a), scene, b)
    decreases |a|
  {
    if a == [] {
      assert a + b == b;
    } else {
      IndicesInSplit(a, b, |scene.meshes|);
      var st' := ImportMesh(st, scene, a[0]);
      AppendTail(a, b);
      assert ImportResolvable(st', scene, a[1..] + b);
      ImportAppend(st', scene, a[1..], b);
      assert ImportAll(st, scene, a) == ImportAll(st', scene, a[1..]);
      assert ImportAll(st, scene, a + b) == ImportAll(st', scene, a[1..] + b);
    }
  }

  /** Indices in range for a + b are indices in range for a and for b. */
  lemma IndicesInSplit(a: seq<nat>, b: seq<nat>, n: nat)
    requires IndicesIn(a + b, n)
    ensures IndicesIn(a, n) && IndicesIn(b, n)
  {
    assert forall j | 0 <= j < |a| :: a[j] == (a + b)[j];
    assert forall j | 0 <= j < |b| :: b[j] == (a + b)[|a| + j];
  }

  // ---------------------------------------------------------------------------
  // Traversal order

  /** Mesh indices in the order processNode visits them: a node's own, then each child's subtree. */
  function PreorderMeshes(node: AiNode): seq<nat>
    decreases node, |node.children| + 1
  {
    node.meshes + ChildrenFrom(node, 0)
  }

  /** Mesh indices of the subtrees of children i, i+1, ... in order. */
  function ChildrenFrom(node: AiNode, i: nat): seq<nat>
    requires i <= |node.children|
    decreases node, |node.children| - i
  {
    if i == |node.children| then [] else PreorderMeshes(node.children[i]) + ChildrenFrom(node, i + 1)
  }

  /** Importing a node's meshes is importing its own meshes, then its children's subtrees. */
  lemma ImportNodeSplit(st: ImportState, scene: AiScene, node: AiNode)
    requires SceneWellFormed(scene) && ImportResolvable(st, scene, PreorderMeshes(node))
    ensures ImportResolvable(st, scene, node.meshes)
    ensures ImportResolvable(ImportAll(st, scene, node.meshes), scene, ChildrenFrom(node, 0))
    ensures ImportAll(st, scene, PreorderMeshes(node))
      == ImportAll(ImportAll(st, scene, node.meshes), scene, ChildrenFrom(node, 0))
  {
    ImportAppend(st, scene, node.meshes, ChildrenFrom(node, 0));
  }

  /** Importing children i, i+1, ... is importing child i's subtree, then the children after it. */
  lemma ImportChildSplit(st: ImportState, scene: AiScene, node: AiNode, i: nat)
    requires SceneWellFormed(scene) && i < |node.children|
    requires ImportResolvable(st, scene, ChildrenFrom(node, i))
    ensures ImportResolvable(st, scene, PreorderMeshes(node.children[i]))
    ensures ImportResolvable(ImportAll(st, scene, PreorderMeshes(node.children[i])), scene, ChildrenFrom(node, i + 1))
    ensures ImportAll(st, scene, ChildrenFrom(node, i))
      == ImportAll(ImportAll(st, scene, PreorderMeshes(node.children[i])), scene, ChildrenFrom(node, i + 1))
  {
    ImportAppend(st, scene, PreorderMeshes(node.children[i]), ChildrenFrom(node, i + 1));
  }

  // ---------------------------------------------------------------------------
  // The import as processNode recurses

  /** processNode can run on `node` without a bone lookup failing, starting from `st`. */
  predicate NodeResolvable(st: ImportState, scene: AiScene, node: AiNode)
    requires SceneWellFormed(scene)
    decreases node, 1, 0, 0
  {
    ImportResolvable(st, scene, node.meshes)
    && ChildrenResolvable(ImportAll(st, scene, node.meshes), scene, node, 0)
  }

  /** The child loop of processNode can run from child i on, starting from `st`. */
  predicate ChildrenResolvable(st: ImportState, scene: AiScene, node: AiNode, i: nat)
    requires SceneWellFormed(scene) && i <= |node.children|
    decreases node, 0, |node.children| - i, 0
  {
    i == |node.children|
    || (NodeResolvable(st, scene, node.children[i])
        && ChildrenResolvable(ImportNode(st, scene, node.children[i]), scene, node, i + 1))
  }

  /** The state after processNode on `node`: its own meshes, then each child's subtree. */
  function ImportNode(st: ImportState, scene: AiScene, node: AiNode): ImportState
    requires SceneWellFormed(scene) && NodeResolvable(st, scene, node)
    decreases node, 1, 0, 1
  {
    ImportChildren(ImportAll(st, scene, node.meshes), scene, node, 0)
  }

  /** The state after the child loop of processNode, from child i on. */
  function ImportChildren(st: ImportState, scene: AiScene, node: AiNode, i: nat): ImportState
    requires SceneWellFormed(scene) && i <= |node.children| && ChildrenResolvable(st, scene, node, i)
    decreases node, 0, |node.children| - i, 1
  {
    if i == |node.children| then st
    else ImportChildren(ImportNode(st, scene, node.children[i]), scene, node, i + 1)
  }

  /**
   * The recursion of processNode imports the meshes in preorder: when the
   * preorder import resolves, so does the recursive one, with the same result.
   */
  lemma {:induction false} ImportNodeIsPreorder(st: ImportState, scene: AiScene, node: AiNode)
    requires SceneWellFormed(scene) && ImportResolvable(st, scene, PreorderMeshes(node))
    ensures NodeResolvable(st, scene, node)
    ensures ImportNode(st, scene, node) == ImportAll(st, scene, PreorderMeshes(node))
    decreases node, 1, 0, 0
  {
    ImportNodeSplit(st, scene, node);
    ImportChildrenIsPreorder(ImportAll(st, scene, node.meshes), scene, node, 0);
  }

  /** The child loop from child i on imports the subtrees of children i, i+1, ... in preorder. */
  lemma {:induction false} ImportChildrenIsPreorder(st: ImportState, scene: AiScene, node: AiNode, i: nat)
    requires SceneWellFormed(scene) && i <= |node.children|
    requires ImportResolvable(st, scene, ChildrenFrom(node, i))
    ensures ChildrenResolvable(st, scene, node, i)
    ensures ImportChildren(st, scene, node, i) == ImportAll(st, scene, ChildrenFrom(node, i))
    decreases node, 0, |node.children| - i, 0
  {
    if i < |node.children| {
      var child := node.children[i];
      ImportChildSplit(st, scene, node, i);
      ImportNodeIsPreorder(st, scene, child);
      ImportChildrenIsPreorder(ImportNode(st, scene, child), scene, node, i + 1);
    }
  }

  /** Mesh k is referenced by this node or one of its descendants. */
  predicate Referenced(node: AiNode, k: nat)
    decreases node
  {
    k in node.meshes || exists i | 0 <= i < |node.children| :: Referenced(node.children[i], k)
  }

  /** The traversal visits exactly the mesh references of the subtree. */
  lemma {:induction false} PreorderCovers(node: AiNode, k: nat)
    ensures k in PreorderMeshes(node) <==> Referenced(node, k)
    decreases node, |node.children| + 1
  {
    ChildrenFromCovers(node, 0, k);
  }

  lemma {:induction false} ChildrenFromCovers(node: AiNode, i: nat, k: nat)
    requires i <= |node.children|
    ensures k in ChildrenFrom(node, i) <==> exists j | i <= j < |node.children| :: Referenced(node.children[j], k)
    decreases node, |node.children| - i
  {
    if i < |node.children| {
      PreorderCovers(node.children[i], k);
      ChildrenFromCovers(node, i + 1, k);
    }
  }

  // ---------------------------------------------------------------------------
  // Properties of the import

  /** The four texture lists have one entry per mesh. */
  predicate TexturesAligned(st: ImportState) {
    |st.diffuseMaps| == |st.meshes| && |st.specularMaps| == |st.meshes|
    && |st.normalMaps| == |st.meshes| && |st.heightMaps| == |st.meshes|
  }

  /**
   * Importing `order` appends one mesh per index, in order, each with its own
   * buffers and diffuse handle, keeps what was there, and keeps the texture
   * lists aligned with the mesh list.
   */
  lemma {:induction false} ImportAppendsMeshes(st: ImportState, scene: AiScene, order: seq<nat>)
    requires SceneWellFormed(scene) && IndicesIn(order, |scene.meshes|) && TexturesAligned(st)
    ensures var r := ImportAll(st, scene, order);
      && TexturesAligned(r)
      && |r.meshes| == |st.meshes| + |order|
      && r.meshes[..|st.meshes|] == st.meshes
      && r.diffuseMaps[..|st.meshes|] == st.diffuseMaps
      && r.specularMaps[..|st.meshes|] == st.specularMaps
      && r.normalMaps[..|st.meshes|] == st.normalMaps
      && r.heightMaps[..|st.meshes|] == st.heightMaps
      && forall j | 0 <= j < |order| ::
           var mesh := scene.meshes[order[j]];
           var m := r.meshes[|st.meshes| + j];
           && m.indices == Flatten(mesh.faces)
           && |m.boneIDs| == mesh.numVertices && |m.weights| == mesh.numVertices
           && r.diffuseMaps[|st.meshes| + j]
              == LoadMaterialTextures(scene.materials[mesh.materialIndex], TextureDiffuse)
    decreases |order|
  {
    if order != [] {
      var st' := ImportMesh(st, scene, order[0]);
      IndicesInTail(order, |scene.meshes|);
      ImportAppendsMeshes(st', scene, order[1..]);
      var r := ImportAll(st, scene, order);
      assert r == ImportAll(st', scene, order[1..]);
      assert r.meshes[..|st.meshes|] == st.meshes by {
        assert r.meshes[..|st'.meshes|][..|st.meshes|] == r.meshes[..|st.meshes|];
      }
      assert r.diffuseMaps[..|st.meshes|] == st.diffuseMaps by {
        assert r.diffuseMaps[..|st'.meshes|][..|st.meshes|] == r.diffuseMaps[..|st.meshes|];
      }
      assert r.specularMaps[..|st.meshes|] == st.specularMaps by {
        assert r.specularMaps[..|st'.meshes|][..|st.meshes|] == r.specularMaps[..|st.meshes|];
      }
      assert r.normalMaps[..|st.meshes|] == st.normalMaps by {
        assert r.normalMaps[..|st'.meshes|][..|st.meshes|] == r.normalMaps[..|st.meshes|];
      }
      assert r.heightMaps[..|st.meshes|] == st.heightMaps by {
        assert r.heightMaps[..|st'.meshes|][..|st.meshes|] == r.heightMaps[..|st.meshes|];
      }
      forall j | 0 <= j < |order|
        ensures var mesh := scene.meshes[order[j]];
          var m := r.meshes[|st.meshes| + j];
          && m.indices == Flatten(mesh.faces)
          && |m.boneIDs| == mesh.numVertices && |m.weights| == mesh.numVertices
          && r.diffuseMaps[|st.meshes| + j]
             == LoadMaterialTextures(scene.materials[mesh.materialIndex], TextureDiffuse)
      {
        if j == 0 {
          assert r.meshes[|st.meshes|] == r.meshes[..|st'.meshes|][|st.meshes|];
          assert r.diffuseMaps[|st.meshes|] == r.diffuseMaps[..|st'.meshes|][|st.meshes|];
        } else {
          assert order[1..][j - 1] == order[j];
          assert |st.meshes| + j == |st'.meshes| + (j - 1);
        }
      }
    }
  }

  /** Indices in range for a list are in range for its tail. */
  lemma IndicesInTail(order: seq<nat>, n: nat)
    requires order != [] && IndicesIn(order, n)
    ensures IndicesIn(order[1..], n)
  {
    assert forall j | 0 <= j < |order[1..]| :: order[1..][j] == order[j + 1];
  }

  /** A prefix of a prefix is a prefix. */
  lemma PrefixOfPrefix<T>(a: seq<T>, b: seq<T>, c: seq<T>)
    requires |a| <= |b| <= |c| && b[..|a|] == a && c[..|b|] == b
    ensures c[..|a|] == a
  {
    assert c[..|b|][..|a|] == c[..|a|];
  }

  /** The tail of a + b, for a non-empty a. */
  lemma AppendTail<T>(a: seq<T>, b: seq<T>)
    requires a != []
    ensures (a + b)[0] == a[0] && (a + b)[1..] == a[1..] + b
  {
  }

  /** Processing one mesh only appends to the bone table. */
  lemma ImportMeshKeepsBoneTable(st: ImportState, scene: AiScene, k: nat)
    requires SceneWellFormed(scene) && k < |scene.meshes|
    ensures var r := ImportMesh(st, scene, k);
      |st.boneProps| <= |r.boneProps| && r.boneProps[..|st.boneProps|] == st.boneProps
  {
    var bones := scene.meshes[k].bones;
    RegistryAfterShape(st.boneProps, bones, BonesProcessed(bones));
  }

  /** The bone table only grows: entries already present keep their index and value. */
  lemma {:induction false} ImportKeepsBoneTable(st: ImportState, scene: AiScene, order: seq<nat>)
    requires SceneWellFormed(scene) && IndicesIn(order, |scene.meshes|)
    ensures var r := ImportAll(st, scene, order);
      |st.boneProps| <= |r.boneProps| && r.boneProps[..|st.boneProps|] == st.boneProps
    decreases |order|
  {
    if order != [] {
      var st' := ImportMesh(st, scene, order[0]);
      ImportMeshKeepsBoneTable(st, scene, order[0]);
      IndicesInTail(order, |scene.meshes|);
      ImportKeepsBoneTable(st', scene, order[1..]);
      var r := ImportAll(st', scene, order[1..]);
      assert r == ImportAll(st, scene, order);
      PrefixOfPrefix(st.boneProps, st'.boneProps, r.boneProps);
    }
  }

  /** Every vertex slot of every mesh is free or holds a bone ID below n. */
  predicate MeshIdsBelow(meshes: seq<Mesh>, n: nat) {
    forall i | 0 <= i < |meshes| :: IdsBelow(SkinSlots(meshes[i].boneIDs, meshes[i].weights), n)
  }

  lemma IdsBelowMonotone(s: SkinSlots, n: nat, n': nat)
    requires IdsBelow(s, n) && n <= n'
    ensures IdsBelow(s, n')
  {
  }

  /**
   * After a resolvable import every bone ID stored in any vertex slot indexes
   * the bone table, so each names an entry that carries the bone's offset.
   */
  lemma {:induction false} ImportIdsIndexBoneTable(st: ImportState, scene: AiScene, order: seq<nat>)
    requires SceneWellFormed(scene) && ImportResolvable(st, scene, order)
    requires MeshIdsBelow(st.meshes, |st.boneProps|)
    ensures var r := ImportAll(st, scene, order);
      MeshIdsBelow(r.meshes, |r.boneProps|)
    decreases |order|
  {
    if order != [] {
      var mesh := scene.meshes[order[0]];
      var st' := ImportMesh(st, scene, order[0]);
      var n := BonesProcessed(mesh.bones);
      var s := Unassigned(mesh.numVertices);
      RegistryAfterShape(st.boneProps, mesh.bones, n);
      assert BonesCover(s, mesh.bones);
      SkinAfterIdsIndexRegistry(s, st.boneProps, mesh.bones, n);
      forall i | 0 <= i < |st'.meshes|
        ensures IdsBelow(SkinSlots(st'.meshes[i].boneIDs, st'.meshes[i].weights), |st'.boneProps|)
      {
        if i < |st.meshes| {
          IdsBelowMonotone(SkinSlots(st'.meshes[i].boneIDs, st'.meshes[i].weights), |st.boneProps|, |st'.boneProps|);
        }
      }
      ImportIdsIndexBoneTable(st', scene, order[1..]);
    }
  }

  // ---------------------------------------------------------------------------
  // The loader

  /**
   * Writes one influence into the first free slot of vertex `vertexId`: the
   * four-slot loop with its early exit.
   */
  method WriteFirstFreeSlot(boneIDs: array<IVec4>, weights: array<Vec4>, vertexId: nat, boneId: int, weight: real)
    requires vertexId < boneIDs.Length && vertexId < weights.Length
    modifies boneIDs, weights
    ensures SkinSlots(boneIDs[..], weights[..])
      == AddInfluence(SkinSlots(old(boneIDs[..]), old(weights[..])), AiVertexWeight(vertexId, weight), boneId)
  {
    for i := 0 to 4
      invariant boneIDs[..] == old(boneIDs[..]) && weights[..] == old(weights[..])
      invariant forall j | 0 <= j < i :: boneIDs[vertexId][j] >= 0
    {
      if boneIDs[vertexId][i] < 0 {
        weights[vertexId] := weights[vertexId][i := weight];
        boneIDs[vertexId] := boneIDs[vertexId][i := boneId];
        break;
      }
    }
  }

  /** The lookup loop over the bone table: the lowest index whose name matches, or -1. */
  method LookupBone(boneProps: seq<BoneProps>, boneName: string) returns (boneID: int)
    ensures boneID == match FindBone(boneProps, boneName) case Some(i) => i case None => -1
  {
    boneID := -1;
    var i := 0;
    while i < |boneProps|
      invariant i <= |boneProps|
      invariant boneID == -1
      invariant forall j | 0 <= j < i :: boneProps[j].name != boneName
    {
      if boneProps[i].name == boneName {
        boneID := i;
        break;
      }
      i := i + 1;
    }
  }

  /** The loop over one bone's weights, each written into its vertex's first free slot. */
  method WriteBoneWeights(boneIDs: array<IVec4>, weights: array<Vec4>, vws: seq<AiVertexWeight>, boneID: int,
                          ghost before: SkinSlots)
    requires SkinSlots(boneIDs[..], weights[..]) == before
    requires Covers(before, vws)
    modifies boneIDs, weights
    ensures SkinSlots(boneIDs[..], weights[..]) == ApplyBoneWeights(before, vws, boneID)
  {
    var weightIndex := 0;
    while weightIndex < |vws|
      invariant weightIndex <= |vws|
      invariant SkinSlots(boneIDs[..], weights[..]) == ApplyBoneWeights(before, vws[..weightIndex], boneID)
    {
      var vertexId := vws[weightIndex].vertexId;
      var weight := vws[weightIndex].weight;
      // The range check of model.hpp:110, with its bound made strict.
      assert vertexId < boneIDs.Length;
      WriteFirstFreeSlot(boneIDs, weights, vertexId, boneID, weight);
      assert vws[..weightIndex + 1][..weightIndex] == vws[..weightIndex];
      weightIndex := weightIndex + 1;
    }
    assert vws[..|vws|] == vws;
  }

  /** The range check as model.hpp:110 writes it: every weight's vertex id at most the vertex count. */
  predicate VertexIdsAtMost(vws: seq<AiVertexWeight>, n: nat) {
    forall k | 0 <= k < |vws| :: vws[k].vertexId <= n
  }

  /**
   * The check as written lets through a weight naming vertex n of an
   * n-vertex mesh, one past the end of both per-vertex buffers.
   */
  lemma VertexCheckAdmitsOutOfRange(n: nat)
    ensures exists vws :: VertexIdsAtMost(vws, n) && !Covers(Unassigned(n), vws)
  {
    var vws := [AiVertexWeight(n, 1.0)];
    assert vws[0].vertexId == n;
    assert VertexIdsAtMost(vws, n) && !Covers(Unassigned(n), vws);
  }

  /** The vertex loop of processMesh: one (-1,-1,-1,-1) / (0,0,0,0) slot pair per vertex. */
  method DefaultSlots(numVertices: nat) returns (boneIDs: array<IVec4>, weights: array<Vec4>)
    ensures fresh(boneIDs) && fresh(weights)
    ensures SkinSlots(boneIDs[..], weights[..]) == Unassigned(numVertices)
  {
    boneIDs := new IVec4[numVertices];
    weights := new Vec4[numVertices];
    for i := 0 to numVertices
      invariant forall j | 0 <= j < i :: boneIDs[j] == NoBones && weights[j] == NoWeights
    {
      boneIDs[i] := NoBones;
      weights[i] := NoWeights;
    }
  }

  /** The index loop of processMesh: every face's indices, faces in order. */
  method JoinFaceIndices(faces: seq<seq<nat>>) returns (indices: seq<nat>)
    ensures indices == Flatten(faces)
  {
    indices := [];
    for f := 0 to |faces|
      invariant indices == Flatten(faces[..f])
    {
      var face := faces[f];
      for j := 0 to |face|
        invariant indices == Flatten(faces[..f]) + face[..j]
      {
        indices := indices + [face[j]];
      }
      assert faces[..f + 1][..f] == faces[..f];
    }
    assert faces[..|faces|] == faces;
  }

  class Model {
    var meshes: seq<Mesh>
    var diffuseMaps: seq<int>
    var specularMaps: seq<int>
    var normalMaps: seq<int>
    var heightMaps: seq<int>
    var boneProps: seq<BoneProps>
    var boneCounter: int

    /** The bone counter always equals the size of the bone table. */
    ghost predicate Valid()
      reads this
    {
      boneCounter == |boneProps|
    }

    function State(): ImportState
      reads this
    {
      ImportState(meshes, boneProps, diffuseMaps, specularMaps, normalMaps, heightMaps)
    }

    /**
     * Model(path, ...): the scene the importer produced is processed from its
     * root; afterwards every texture list has one entry per mesh.
     */
    constructor (scene: AiScene)
      requires SceneWellFormed(scene)
      requires ImportResolvable(EmptyImport, scene, PreorderMeshes(scene.root))
      ensures Valid()
      ensures State() == ImportAll(EmptyImport, scene, PreorderMeshes(scene.root))
      ensures TexturesAligned(State())
    {
      meshes := [];
      diffuseMaps := [];
      specularMaps := [];
      normalMaps := [];
      heightMaps := [];
      boneProps := [];
      boneCounter := 0;
      new;
      ImportNodeIsPreorder(EmptyImport, scene, scene.root);
      ProcessNode(scene.root, scene);
      ImportAppendsMeshes(EmptyImport, scene, PreorderMeshes(scene.root));
    }

    /**
     * extractBoneWeightForVertices: reads the first min(|bones|, 100) bones,
     * registers or looks up each one's ID, and writes each of its weights into
     * the first free slot of the weighted vertex.
     */
    method ExtractBoneWeightForVertices(boneIDs: array<IVec4>, weights: array<Vec4>, mesh: AiMesh,
                                        ghost skin0: SkinSlots, ghost reg0: seq<BoneProps>)
      requires Valid() && boneProps == reg0
      requires BoneNamesResolve(reg0, mesh.bones)
      requires SkinSlots(boneIDs[..], weights[..]) == skin0
      requires BonesCover(skin0, mesh.bones)
      modifies this`boneProps, this`boneCounter, boneIDs, weights
      ensures Valid()
      ensures boneProps == RegistryAfter(reg0, mesh.bones, BonesProcessed(mesh.bones))
      ensures SkinSlots(boneIDs[..], weights[..]) == SkinAfter(skin0, reg0, mesh.bones, BonesProcessed(mesh.bones))
    {
      var numBones := if |mesh.bones| > MaxBonesPerMesh then MaxBonesPerMesh else |mesh.bones|;
      var boneIndex := 0;
      while boneIndex < numBones
        invariant boneIndex <= numBones == BonesProcessed(mesh.bones)
        invariant boneProps == RegistryAfter(reg0, mesh.bones, boneIndex)
        invariant Valid()
        invariant SkinSlots(boneIDs[..], weights[..]) == SkinAfter(skin0, reg0, mesh.bones, boneIndex)
      {
        ghost var prev := SkinSlots(boneIDs[..], weights[..]);
        var boneID := RegisterBone(mesh, boneIndex, reg0);
        SkinAfterStep(skin0, reg0, mesh.bones, boneIndex);
        WriteBoneWeights(boneIDs, weights, mesh.bones[boneIndex].weights, boneID, prev);
        boneIndex := boneIndex + 1;
      }
    }

    /**
     * The table half of one bone of extractBoneWeightForVertices: a bone whose
     * index is past the table's end is appended under that index; any other is
     * looked up by name, and the lookup always finds it.
     */
    method RegisterBone(mesh: AiMesh, boneIndex: nat, ghost reg0: seq<BoneProps>) returns (boneID: int)
      requires Valid()
      requires boneIndex < BonesProcessed(mesh.bones)
      requires BoneNamesResolve(reg0, mesh.bones)
      requires boneProps == RegistryAfter(reg0, mesh.bones, boneIndex)
      modifies this`boneProps, this`boneCounter
      ensures Valid()
      ensures boneProps == RegistryAfter(reg0, mesh.bones, boneIndex + 1)
      ensures boneID == BoneIdFor(RegistryAfter(reg0, mesh.bones, boneIndex), mesh.bones, boneIndex)
      ensures boneID != -1
    {
      ghost var reg := boneProps;
      boneID := -1;
      var boneName := mesh.bones[boneIndex].name;
      if boneIndex >= |boneProps| {
        boneProps := boneProps + [BoneProps(boneName, AiMatrix4x4ToGlm(mesh.bones[boneIndex].offsetMatrix))];
        boneID := boneIndex;
        boneCounter := boneCounter + 1;
      } else {
        boneID := LookupBone(boneProps, boneName);
      }
      BoneIdNamesBone(reg0, mesh.bones, boneIndex);
      // The lookup never fails (the assertion at model.hpp:99).
      assert boneID != -1;
    }

    /**
     * The per-vertex bone buffers of processMesh: default slots for every
     * vertex, then the mesh's bone weights written into them.
     */
    method SkinVertices(mesh: AiMesh, ghost reg0: seq<BoneProps>) returns (boneIDs: seq<IVec4>, weights: seq<Vec4>)
      requires Valid() && boneProps == reg0
      requires WeightsInRange(mesh)
      requires BoneNamesResolve(reg0, mesh.bones)
      modifies this`boneProps, this`boneCounter
      ensures Valid()
      ensures boneProps == RegistryAfter(reg0, mesh.bones, BonesProcessed(mesh.bones))
      ensures SkinSlots(boneIDs, weights)
        == SkinAfter(Unassigned(mesh.numVertices), reg0, mesh.bones, BonesProcessed(mesh.bones))
    {
      var ids, ws := DefaultSlots(mesh.numVertices);
      ExtractBoneWeightForVertices(ids, ws, mesh, Unassigned(mesh.numVertices), reg0);
      boneIDs, weights := ids[..], ws[..];
    }

    /** The four texture pushes of processMesh: one handle per texture list, read from the mesh's material. */
    method PushMaterialTextures(material: AiMaterial)
      modifies this`diffuseMaps, this`specularMaps, this`normalMaps, this`heightMaps
      ensures diffuseMaps == old(diffuseMaps) + [LoadMaterialTextures(material, TextureDiffuse)]
      ensures specularMaps == old(specularMaps) + [LoadMaterialTextures(material, TextureSpecular)]
      ensures normalMaps == old(normalMaps) + [LoadMaterialTextures(material, TextureHeight)]
      ensures heightMaps == old(heightMaps) + [LoadMaterialTextures(material, TextureAmbient)]
    {
      diffuseMaps := diffuseMaps + [LoadMaterialTextures(material, TextureDiffuse)];
      specularMaps := specularMaps + [LoadMaterialTextures(material, TextureSpecular)];
      normalMaps := normalMaps + [LoadMaterialTextures(material, TextureHeight)];
      heightMaps := heightMaps + [LoadMaterialTextures(material, TextureAmbient)];
    }

    /**
     * processMesh: one default slot pair per vertex, the face indices joined in
     * face order, one texture handle pushed per texture list, then the bone
     * weights extracted. The mesh list itself is left to the caller.
     */
    method ProcessMesh(mesh: AiMesh, scene: AiScene) returns (m: Mesh)
      requires Valid()
      requires MeshWellFormed(mesh, |scene.materials|)
      requires BoneNamesResolve(boneProps, mesh.bones)
      modifies this
      ensures Valid()
      ensures m == ProcessedMesh(old(boneProps), mesh)
      ensures boneProps == RegistryAfter(old(boneProps), mesh.bones, BonesProcessed(mesh.bones))
      ensures meshes == old(meshes)
      ensures var mat := scene.materials[mesh.materialIndex];
        && diffuseMaps == old(diffuseMaps) + [LoadMaterialTextures(mat, TextureDiffuse)]
        && specularMaps == old(specularMaps) + [LoadMaterialTextures(mat, TextureSpecular)]
        && normalMaps == old(normalMaps) + [LoadMaterialTextures(mat, TextureHeight)]
        && heightMaps == old(heightMaps) + [LoadMaterialTextures(mat, TextureAmbient)]
    {
      ghost var reg0 := boneProps;
      var indices := JoinFaceIndices(mesh.faces);
      PushMaterialTextures(scene.materials[mesh.materialIndex]);
      // The vertex loop comes first in processMesh; it touches none of the
      // state the index loop and the pushes change.
      var boneIDs, weights := SkinVertices(mesh, reg0);
      m := Mesh(boneIDs, weights, indices);
    }

    /** One iteration of processNode's mesh loop: mesh k of the scene processed and appended to the mesh list. */
    method PushProcessedMesh(k: nat, scene: AiScene)
      requires Valid() && SceneWellFormed(scene) && k < |scene.meshes|
      requires BoneNamesResolve(boneProps, scene.meshes[k].bones)
      modifies this
      ensures Valid()
      ensures State() == ImportMesh(old(State()), scene, k)
    {
      var m := ProcessMesh(scene.meshes[k], scene);
      meshes := meshes + [m];
    }

    /** The mesh loop of processNode: the scene meshes named by `ks` processed and appended, in order. */
    method ProcessMeshList(ks: seq<nat>, scene: AiScene)
      requires Valid() && SceneWellFormed(scene)
      requires ImportResolvable(State(), scene, ks)
      modifies this
      ensures Valid()
      ensures State() == ImportAll(old(State()), scene, ks)
    {
      ghost var target := ImportAll(State(), scene, ks);
      for i := 0 to |ks|
        invariant Valid()
        invariant ImportResolvable(State(), scene, ks[i..])
        invariant ImportAll(State(), scene, ks[i..]) == target
      {
        ImportFirst(State(), scene, ks[i..], ks[i + 1..]);
        assert ks[i..][0] == ks[i];
        PushProcessedMesh(ks[i], scene);
      }
    }

    /**
     * processNode: the node's own meshes in order, then each child's subtree,
     * left to right.
     */
    method ProcessNode(node: AiNode, scene: AiScene)
      requires Valid() && SceneWellFormed(scene)
      requires NodeResolvable(State(), scene, node)
      modifies this
      ensures Valid()
      ensures State() == ImportNode(old(State()), scene, node)
      decreases node, 1
    {
      ProcessMeshList(node.meshes, scene);
      ProcessChildren(node, scene);
    }

    /** The child loop of processNode: the subtree of every child, left to right. */
    method ProcessChildren(node: AiNode, scene: AiScene)
      requires Valid() && SceneWellFormed(scene)
      requires ChildrenResolvable(State(), scene, node, 0)
      modifies this
      ensures Valid()
      ensures State() == ImportChildren(old(State()), scene, node, 0)
      decreases node, 0
    {
      ghost var target := ImportChildren(State(), scene, node, 0);
      for i := 0 to |node.children|
        invariant Valid()
        invariant ChildrenResolvable(State(), scene, node, i)
        invariant ImportChildren(State(), scene, node, i) == target
      {
        assert node.children[i] < node;
        ProcessNode(node.children[i], scene);
      }
    }
  }
}

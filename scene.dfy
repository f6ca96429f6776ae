/**
 * The scene graph the renderer draws: nodes owning their children, the
 * transform pass that gives every node its world matrix, and the render walk,
 * which is modelled by the sequence of GL calls it issues.
 */
module SceneGraph {
  import opened Matrices
  import opened ModelLoader

  /** ROOT, GEOMETRY, CHARACTER: how a node is drawn. */
  datatype NodeType = Root | Geometry | Character

  /** The GL calls the render walk issues, with the values they carry. */
  datatype GlCall =
    | TypeUniform(kind: NodeType)      // uniform 4: the node type
    | ModelMatrix(world: Mat)          // uniform 0: the node's world matrix
    | ActiveTexture(unit: nat)         // GL_TEXTURE0 + unit
    | BindTexture2D(texture: int)
    | BindVertexArray(vao: int)
    | DrawTriangles(count: nat)        // glDrawElements(GL_TRIANGLES, count, ...)

  /** Everything about a node except its world matrix. */
  datatype NodePose = NodePose(
    kind: NodeType, position: Vec3, rotation: Vec3, scale: Vec3, referencePoint: Vec3,
    vertexArrayObjectIDs: seq<int>, vaoIndexCounts: seq<nat>,
    textureIDs: seq<int>, normalMapIDs: seq<int>, specularMapIDs: seq<int>)

  /** The fields of a node the draw loop reads: its type, world matrix and per-slot vectors. */
  datatype DrawState = DrawState(
    kind: NodeType, world: Mat, vaos: seq<int>, counts: seq<nat>,
    textures: seq<int>, normalMaps: seq<int>, specularMaps: seq<int>)

  /**
   * The per-slot vectors are long enough for the draw loop of the node's
   * type: a CHARACTER slot needs its three texture ids only when its vertex
   * array is not -1, since the loop skips the others before reading them.
   */
  predicate SlotsReady(d: DrawState) {
    match d.kind
    case Root => true
    case Geometry => |d.counts| <= |d.vaos|
    case Character =>
      && |d.counts| <= |d.vaos|
      && forall i | 0 <= i < |d.counts| && d.vaos[i] != -1 ::
           i < |d.textures| && i < |d.normalMaps| && i < |d.specularMaps|
  }

  /** The union of the footprints of a list of nodes. */
  ghost function UnionRepr(nodes: seq<Node>): set<Node>
    decreases |nodes|
  {
    if nodes == [] then {} else UnionRepr(nodes[..|nodes| - 1]) + nodes[|nodes| - 1].Repr
  }

  class Node {
    var kind: NodeType
    var position: Vec3
    var rotation: Vec3
    var scale: Vec3
    var referencePoint: Vec3
    var vertexArrayObjectIDs: seq<int>
    var vaoIndexCounts: seq<nat>
    var textureIDs: seq<int>
    var normalMapIDs: seq<int>
    var specularMapIDs: seq<int>
    var currentTransformationMatrix: Mat

    /** The children, in the order they were added. */
    const children: seq<Node>
    /** This node and all its descendants. */
    ghost const Repr: set<Node>

    /** The children form a tree: each child's subtree lies inside this one, misses this node, and misses its siblings' subtrees. */
    ghost predicate Valid()
      decreases Repr
    {
      && this in Repr
      && (forall i | 0 <= i < |children| ::
            && children[i] in Repr
            && children[i].Repr <= Repr
            && this !in children[i].Repr
            && children[i].Valid())
      && (forall i, j | 0 <= i < j < |children| :: children[i].Repr !! children[j].Repr)
    }

    /** The footprint holds nothing beyond this node and its children's footprints, all the way down. */
    ghost predicate ReprExact()
      requires Valid()
      decreases Repr
    {
      && Repr == {this} + UnionRepr(children)
      && forall i | 0 <= i < |children| :: children[i].ReprExact()
    }

    /**
     * A fresh node of the given type over the given children, with a zero
     * pose, unit scale, no mesh slots and the identity as world matrix.
     */
    constructor (kind: NodeType, children: seq<Node>)
      requires forall i | 0 <= i < |children| :: children[i].Valid()
      requires forall i, j | 0 <= i < j < |children| :: children[i].Repr !! children[j].Repr
      requires forall i | 0 <= i < |children| :: children[i].ReprExact()
      ensures Valid() && ReprExact()
      ensures this.kind == kind && this.children == children
      ensures vertexArrayObjectIDs == [] && vaoIndexCounts == []
      ensures textureIDs == [] && normalMapIDs == [] && specularMapIDs == []
    {
      this.kind := kind;
      position := Vec3(0.0, 0.0, 0.0);
      rotation := Vec3(0.0, 0.0, 0.0);
      scale := Vec3(1.0, 1.0, 1.0);
      referencePoint := Vec3(0.0, 0.0, 0.0);
      vertexArrayObjectIDs := [];
      vaoIndexCounts := [];
      textureIDs := [];
      normalMapIDs := [];
      specularMapIDs := [];
      currentTransformationMatrix := Identity;
      this.children := children;
      Repr := {this} + UnionRepr(children);
      new;
      UnionReprContains(children);
    }

    ghost function Pose(): NodePose
      reads this
    {
      NodePose(kind, position, rotation, scale, referencePoint,
        vertexArrayObjectIDs, vaoIndexCounts, textureIDs, normalMapIDs, specularMapIDs)
    }

    /**
     * The node's local matrix: translate to its position, then rotate about
     * y, x, z and scale, all pivoting on the reference point.
     */
    function LocalTransform(): Mat
      reads this
    {
      Mul(Translation(position),
      Mul(Translation(referencePoint),
      Mul(Rotation(rotation.y, YAxis),
      Mul(Rotation(rotation.x, XAxis),
      Mul(Rotation(rotation.z, ZAxis),
      Mul(Scaling(scale),
          Translation(Neg(referencePoint))))))))
    }

    /** Every node of the subtree holds its parent's world matrix times its own local one. */
    ghost predicate WorldComposed(inherited: Mat)
      requires Valid()
      reads Repr
      decreases Repr
    {
      && currentTransformationMatrix == Mul(inherited, LocalTransform())
      && forall i | 0 <= i < |children| :: children[i].WorldComposed(currentTransformationMatrix)
    }

    /** What the draw loop reads from this node. */
    function Draw(): DrawState
      reads this
    {
      DrawState(kind, currentTransformationMatrix, vertexArrayObjectIDs, vaoIndexCounts,
        textureIDs, normalMapIDs, specularMapIDs)
    }

    predicate Renderable()
      reads this
    {
      SlotsReady(Draw())
    }

    ghost predicate TreeRenderable()
      reads Repr
    {
      forall n | n in Repr :: n.Renderable()
    }
  }

  lemma {:induction false} UnionReprContains(nodes: seq<Node>)
    ensures forall i | 0 <= i < |nodes| :: nodes[i].Repr <= UnionRepr(nodes)
    decreases |nodes|
  {
    if nodes != [] {
      UnionReprContains(nodes[..|nodes| - 1]);
    }
  }

  // ---------------------------------------------------------------------------
  // Transform pass

  /**
   * updateNodeTransformations: each node's world matrix becomes the matrix
   * passed down times its local matrix, and its children receive that world
   * matrix. Nothing but world matrices changes.
   */
  method UpdateNodeTransformations(node: Node, transformationThusFar: Mat)
    requires node.Valid()
    modifies node.Repr
    ensures node.WorldComposed(transformationThusFar)
    ensures forall n | n in node.Repr :: n.Pose() == old(n.Pose())
    decreases node.Repr
  {
    node.currentTransformationMatrix := Mul(transformationThusFar, node.LocalTransform());
    for i := 0 to |node.children|
      invariant node.currentTransformationMatrix == Mul(transformationThusFar, node.LocalTransform())
      invariant forall j | 0 <= j < i :: node.children[j].WorldComposed(node.currentTransformationMatrix)
      invariant forall n | n in node.Repr :: n.Pose() == old(n.Pose())
    {
      UpdateNodeTransformations(node.children[i], node.currentTransformationMatrix);
    }
  }

  /** With the identity passed in, as the render loop does for the root, the root's world matrix is its local matrix. */
  lemma RootWorldIsLocal(root: Node)
    requires root.Valid() && root.WorldComposed(Identity)
    ensures root.currentTransformationMatrix == root.LocalTransform()
  {
  }

  /** path[k + 1] is a child of path[k]. */
  ghost predicate DescentPath(path: seq<Node>) {
    forall k | 0 <= k < |path| - 1 :: path[k + 1] in path[k].children
  }

  /** The product of the local matrices along a path, outermost first. */
  ghost function LocalsAlong(path: seq<Node>): Mat
    reads set k | 0 <= k < |path| :: path[k]
    decreases |path|
  {
    if path == [] then Identity else Mul(LocalsAlong(path[..|path| - 1]), path[|path| - 1].LocalTransform())
  }

  /**
   * After the pass, the world matrix of any node is the matrix passed to the
   * top of the pass times the local matrices of every node on the way down.
   */
  lemma {:induction false} WorldIsProductAlongPath(path: seq<Node>, inherited: Mat)
    requires path != [] && DescentPath(path)
    requires path[0].Valid() && path[0].WorldComposed(inherited)
    ensures path[|path| - 1].Valid()
    ensures path[|path| - 1].WorldComposed(Mul(inherited, LocalsAlong(path[..|path| - 1])))
    ensures path[|path| - 1].currentTransformationMatrix == Mul(inherited, LocalsAlong(path))
    decreases |path|
  {
    var last := path[|path| - 1];
    if |path| == 1 {
      assert path[..0] == [];
    } else {
      var prefix := path[..|path| - 1];
      assert DescentPath(prefix);
      WorldIsProductAlongPath(prefix, inherited);
      var parent := prefix[|prefix| - 1];
      assert last in parent.children;
      var i :| 0 <= i < |parent.children| && parent.children[i] == last;
      assert last.WorldComposed(parent.currentTransformationMatrix);
      assert prefix[..|prefix| - 1] == path[..|path| - 2];
    }
  }

  // ---------------------------------------------------------------------------
  // Render walk

  /** Binding a texture to a unit, skipped when the id is negative. */
  function TextureBind(unit: nat, texture: int): seq<GlCall> {
    if texture >= 0 then [ActiveTexture(unit), BindTexture2D(texture)] else []
  }

  /** One draw: the world matrix, the vertex array, the indexed triangles. */
  function DrawSlot(world: Mat, vao: int, count: nat): seq<GlCall> {
    [ModelMatrix(world), BindVertexArray(vao), DrawTriangles(count)]
  }

  /** The calls for mesh slot i of a GEOMETRY or CHARACTER node. */
  function SlotCalls(d: DrawState, i: nat): seq<GlCall>
    requires SlotsReady(d) && d.kind != Root && i < |d.counts|
  {
    var draw := DrawSlot(d.world, d.vaos[i], d.counts[i]);
    if d.kind == Geometry then draw
    else if d.vaos[i] == -1 then []
    else TextureBind(0, d.textures[i]) + TextureBind(1, d.normalMaps[i]) + TextureBind(2, d.specularMaps[i]) + draw
  }

  /** The calls of every mesh slot, one chunk per slot, in slot order. */
  function SlotChunks(d: DrawState): seq<seq<GlCall>>
    requires SlotsReady(d) && d.kind != Root
  {
    seq(|d.counts|, i requires 0 <= i < |d.counts| => SlotCalls(d, i))
  }

  /** The chunks joined in order. */
  function Concat<T>(chunks: seq<seq<T>>): seq<T>
    decreases |chunks|
  {
    if chunks == [] then [] else Concat(chunks[..|chunks| - 1]) + chunks[|chunks| - 1]
  }

  lemma AppendAssociative<T>(a: seq<T>, b: seq<T>, c: seq<T>)
    ensures a + b + c == a + (b + c)
  {
  }

  /** The slots up to i + 1 are the slots up to i, then slot i. */
  lemma SlotChunksStep(d: DrawState, i: nat)
    requires SlotsReady(d) && d.kind != Root && i < |d.counts|
    ensures Concat(SlotChunks(d)[..i + 1]) == Concat(SlotChunks(d)[..i]) + SlotCalls(d, i)
  {
    assert SlotChunks(d)[..i + 1][..i] == SlotChunks(d)[..i];
  }

  /** The calls for the node itself: its type, then the draws of its type (none for ROOT). */
  function OwnCalls(d: DrawState): seq<GlCall>
    requires SlotsReady(d)
  {
    [TypeUniform(d.kind)] + if d.kind == Root then [] else Concat(SlotChunks(d))
  }

  /** renderNode: the node's own calls, then each child's walk in order. */
  function RenderTrace(n: Node): seq<GlCall>
    requires n.Valid() && n.TreeRenderable()
    reads n.Repr
    decreases n.Repr, 1
  {
    OwnCalls(n.Draw()) + ChildrenTrace(n, |n.children|)
  }

  /** The walks of children 0 .. k-1, concatenated. */
  function ChildrenTrace(n: Node, k: nat): seq<GlCall>
    requires n.Valid() && n.TreeRenderable() && k <= |n.children|
    reads n.Repr
    decreases n.Repr, 0, k
  {
    if k == 0 then []
    else ChildrenTrace(n, k - 1) + RenderTrace(n.children[k - 1])
  }

  /** A child of a renderable tree is a smaller renderable tree. */
  lemma ChildReady(node: Node, i: nat)
    requires node.Valid() && node.TreeRenderable() && i < |node.children|
    ensures node.children[i].Valid() && node.children[i].TreeRenderable()
    ensures node.children[i].Repr < node.Repr
  {
    assert node !in node.children[i].Repr;
  }

  /** A child of a renderable tree is a smaller renderable tree, whose walk extends the children's walks. */
  lemma ChildStep(node: Node, i: nat)
    requires node.Valid() && node.TreeRenderable() && i < |node.children|
    ensures node.children[i].Valid() && node.children[i].TreeRenderable()
    ensures node.children[i].Repr < node.Repr
    ensures ChildrenTrace(node, i + 1) == ChildrenTrace(node, i) + RenderTrace(node.children[i])
  {
    assert node !in node.children[i].Repr;
  }

  /** The render walk, issuing its calls in order: the node's own, then each child's walk. */
  method RenderNode(node: Node) returns (calls: seq<GlCall>)
    requires node.Valid() && node.TreeRenderable()
    ensures calls == RenderTrace(node)
    decreases node.Repr, 1
  {
    var own := EmitOwnCalls(node);
    var rest := RenderChildren(node);
    calls := own + rest;
  }

  /** The child loop of renderNode: each child's walk, in list order. */
  method RenderChildren(node: Node) returns (calls: seq<GlCall>)
    requires node.Valid() && node.TreeRenderable()
    ensures calls == ChildrenTrace(node, |node.children|)
    decreases node.Repr, 0
  {
    calls := [];
    for i := 0 to |node.children|
      invariant calls == ChildrenTrace(node, i)
    {
      ChildStep(node, i);
      var childCalls := RenderNode(node.children[i]);
      calls := calls + childCalls;
    }
  }

  /** The type uniform, then the draw loop of the node's type. */
  method EmitOwnCalls(node: Node) returns (calls: seq<GlCall>)
    requires node.Renderable()
    ensures calls == OwnCalls(node.Draw())
  {
    ghost var d := node.Draw();
    calls := [TypeUniform(node.kind)];
    match node.kind {
      case Character =>
        for i := 0 to |node.vaoIndexCounts|
          invariant calls == [TypeUniform(d.kind)] + Concat(SlotChunks(d)[..i])
        {
          ghost var before := calls;
          if node.vertexArrayObjectIDs[i] != -1 {
            ghost var diffuse := TextureBind(0, d.textures[i]);
            ghost var normal := TextureBind(1, d.normalMaps[i]);
            ghost var specular := TextureBind(2, d.specularMaps[i]);
            if node.textureIDs[i] >= 0 {
              calls := calls + [ActiveTexture(0), BindTexture2D(node.textureIDs[i])];
            }
            assert calls == before + diffuse;
            if node.normalMapIDs[i] >= 0 {
              calls := calls + [ActiveTexture(1), BindTexture2D(node.normalMapIDs[i])];
            }
            AppendAssociative(before, diffuse, normal);
            assert calls == before + (diffuse + normal);
            if node.specularMapIDs[i] >= 0 {
              calls := calls + [ActiveTexture(2), BindTexture2D(node.specularMapIDs[i])];
            }
            AppendAssociative(before, diffuse + normal, specular);
            assert calls == before + (diffuse + normal + specular);
            calls := calls + [ModelMatrix(node.currentTransformationMatrix),
                              BindVertexArray(node.vertexArrayObjectIDs[i]),
                              DrawTriangles(node.vaoIndexCounts[i])];
            AppendAssociative(before, diffuse + normal + specular, DrawSlot(d.world, d.vaos[i], d.counts[i]));
            assert calls == before + (diffuse + normal + specular + DrawSlot(d.world, d.vaos[i], d.counts[i]));
          }
          assert calls == before + SlotCalls(d, i);
          SlotChunksStep(d, i);
          AppendAssociative([TypeUniform(d.kind)], Concat(SlotChunks(d)[..i]), SlotCalls(d, i));
        }
        assert SlotChunks(d)[..|node.vaoIndexCounts|] == SlotChunks(d);
      case Geometry =>
        for i := 0 to |node.vaoIndexCounts|
          invariant calls == [TypeUniform(d.kind)] + Concat(SlotChunks(d)[..i])
        {
          calls := calls + [ModelMatrix(node.currentTransformationMatrix),
                            BindVertexArray(node.vertexArrayObjectIDs[i]),
                            DrawTriangles(node.vaoIndexCounts[i])];
          SlotChunksStep(d, i);
          AppendAssociative([TypeUniform(d.kind)], Concat(SlotChunks(d)[..i]), SlotCalls(d, i));
        }
        assert SlotChunks(d)[..|node.vaoIndexCounts|] == SlotChunks(d);
      case Root =>
    }
  }

  // ---------------------------------------------------------------------------
  // Properties of the walk

  /** The items `pick` extracts from each call, in call order. */
  function Collect<T>(calls: seq<GlCall>, pick: GlCall -> seq<T>): seq<T>
    decreases |calls|
  {
    if calls == [] then [] else Collect(calls[..|calls| - 1], pick) + pick(calls[|calls| - 1])
  }

  lemma {:induction false} CollectAppend<T>(a: seq<GlCall>, b: seq<GlCall>, pick: GlCall -> seq<T>)
    ensures Collect(a + b, pick) == Collect(a, pick) + Collect(b, pick)
    decreases |b|
  {
    if b == [] {
      assert a + b == a;
    } else {
      assert (a + b)[..|a + b| - 1] == a + b[..|b| - 1];
      CollectAppend(a, b[..|b| - 1], pick);
    }
  }

  lemma CollectPair<T>(x: GlCall, y: GlCall, pick: GlCall -> seq<T>)
    ensures Collect([x, y], pick) == pick(x) + pick(y)
  {
    assert [x][..0] == [];
    assert Collect([x], pick) == Collect([], pick) + pick(x);
    assert [x, y][..1] == [x];
    assert Collect([x, y], pick) == Collect([x], pick) + pick(y);
  }

  lemma CollectTriple<T>(x: GlCall, y: GlCall, z: GlCall, pick: GlCall -> seq<T>)
    ensures Collect([x, y, z], pick) == pick(x) + pick(y) + pick(z)
  {
    assert [x, y, z][..2] == [x, y];
    CollectPair(x, y, pick);
  }

  function PickDraw(c: GlCall): seq<nat> {
    if c.DrawTriangles? then [c.count] else []
  }

  function PickVao(c: GlCall): seq<int> {
    if c.BindVertexArray? then [c.vao] else []
  }

  function PickType(c: GlCall): seq<NodeType> {
    if c.TypeUniform? then [c.kind] else []
  }

  function PickTexture(c: GlCall): seq<int> {
    if c.BindTexture2D? then [c.texture] else []
  }

  function PickWorld(c: GlCall): seq<Mat> {
    if c.ModelMatrix? then [c.world] else []
  }

  /** Index counts of the draws issued, in order. */
  function DrawnCounts(calls: seq<GlCall>): seq<nat> {
    Collect(calls, PickDraw)
  }

  /**
   * The per-slot items (index counts, vertex arrays) of the slots whose vertex
   * array is not the -1 sentinel, among slots 0 .. k-1, in slot order.
   */
  function Kept<T>(vaos: seq<int>, items: seq<T>, k: nat): seq<T>
    requires k <= |items| <= |vaos|
    decreases k
  {
    if k == 0 then []
    else Kept(vaos, items, k - 1) + (if vaos[k - 1] == -1 then [] else [items[k - 1]])
  }

  /** The items of the calls of one character slot whose vertex array is present. */
  lemma CharacterSlotCollect<T>(d: DrawState, i: nat, pick: GlCall -> seq<T>)
    requires SlotsReady(d) && d.kind == Character && i < |d.counts| && d.vaos[i] != -1
    ensures Collect(SlotCalls(d, i), pick)
      == Collect(TextureBind(0, d.textures[i]), pick)
       + Collect(TextureBind(1, d.normalMaps[i]), pick)
       + Collect(TextureBind(2, d.specularMaps[i]), pick)
       + Collect(DrawSlot(d.world, d.vaos[i], d.counts[i]), pick)
  {
    var a := TextureBind(0, d.textures[i]);
    var b := TextureBind(1, d.normalMaps[i]);
    var c := TextureBind(2, d.specularMaps[i]);
    var e := DrawSlot(d.world, d.vaos[i], d.counts[i]);
    CollectAppend(a, b, pick);
    CollectAppend(a + b, c, pick);
    CollectAppend(a + b + c, e, pick);
  }

  /** A texture bind draws nothing, binds no vertex array and sets no type; it binds its id exactly when that id is non-negative. */
  lemma TextureBindCollect(unit: nat, texture: int)
    ensures DrawnCounts(TextureBind(unit, texture)) == []
    ensures Collect(TextureBind(unit, texture), PickVao) == []
    ensures Collect(TextureBind(unit, texture), PickType) == []
    ensures Collect(TextureBind(unit, texture), PickTexture) == NonNegative(texture)
    ensures Collect(TextureBind(unit, texture), PickWorld) == []
  {
    if texture >= 0 {
      CollectPair(ActiveTexture(unit), BindTexture2D(texture), PickWorld);
      CollectPair(ActiveTexture(unit), BindTexture2D(texture), PickDraw);
      CollectPair(ActiveTexture(unit), BindTexture2D(texture), PickVao);
      CollectPair(ActiveTexture(unit), BindTexture2D(texture), PickType);
      CollectPair(ActiveTexture(unit), BindTexture2D(texture), PickTexture);
    }
  }

  /** A draw slot draws its count with its vertex array, and binds no texture and sets no type. */
  lemma DrawSlotCollect(world: Mat, vao: int, count: nat)
    ensures DrawnCounts(DrawSlot(world, vao, count)) == [count]
    ensures Collect(DrawSlot(world, vao, count), PickVao) == [vao]
    ensures Collect(DrawSlot(world, vao, count), PickType) == []
    ensures Collect(DrawSlot(world, vao, count), PickTexture) == []
    ensures Collect(DrawSlot(world, vao, count), PickWorld) == [world]
  {
    CollectTriple(ModelMatrix(world), BindVertexArray(vao), DrawTriangles(count), PickWorld);
    CollectTriple(ModelMatrix(world), BindVertexArray(vao), DrawTriangles(count), PickDraw);
    CollectTriple(ModelMatrix(world), BindVertexArray(vao), DrawTriangles(count), PickVao);
    CollectTriple(ModelMatrix(world), BindVertexArray(vao), DrawTriangles(count), PickType);
    CollectTriple(ModelMatrix(world), BindVertexArray(vao), DrawTriangles(count), PickTexture);
  }

  /** One slot draws once with its own count, except a CHARACTER slot whose vertex array is -1, which issues nothing. */
  lemma SlotDraws(d: DrawState, i: nat)
    requires SlotsReady(d) && d.kind != Root && i < |d.counts|
    ensures DrawnCounts(SlotCalls(d, i)) == if d.kind == Character && d.vaos[i] == -1 then [] else [d.counts[i]]
  {
    DrawSlotCollect(d.world, d.vaos[i], d.counts[i]);
    if d.kind == Character && d.vaos[i] != -1 {
      TextureBindCollect(0, d.textures[i]);
      TextureBindCollect(1, d.normalMaps[i]);
      TextureBindCollect(2, d.specularMaps[i]);
      CharacterSlotCollect(d, i, PickDraw);
    }
  }

  /** One slot binds its own vertex array, except a CHARACTER slot whose vertex array is -1, which issues nothing. */
  lemma SlotBinds(d: DrawState, i: nat)
    requires SlotsReady(d) && d.kind != Root && i < |d.counts|
    ensures Collect(SlotCalls(d, i), PickVao) == if d.kind == Character && d.vaos[i] == -1 then [] else [d.vaos[i]]
  {
    DrawSlotCollect(d.world, d.vaos[i], d.counts[i]);
    if d.kind == Character && d.vaos[i] != -1 {
      TextureBindCollect(0, d.textures[i]);
      TextureBindCollect(1, d.normalMaps[i]);
      TextureBindCollect(2, d.specularMaps[i]);
      CharacterSlotCollect(d, i, PickVao);
    }
  }

  lemma SlotSetsNoType(d: DrawState, i: nat)
    requires SlotsReady(d) && d.kind != Root && i < |d.counts|
    ensures Collect(SlotCalls(d, i), PickType) == []
  {
    DrawSlotCollect(d.world, d.vaos[i], d.counts[i]);
    if d.kind == Character && d.vaos[i] != -1 {
      TextureBindCollect(0, d.textures[i]);
      TextureBindCollect(1, d.normalMaps[i]);
      TextureBindCollect(2, d.specularMaps[i]);
      CharacterSlotCollect(d, i, PickType);
    }
  }

  /** One slot binds exactly its non-negative texture ids, diffuse, normal, specular in that order. */
  lemma SlotTextures(d: DrawState, i: nat)
    requires SlotsReady(d) && d.kind != Root && i < |d.counts|
    ensures Collect(SlotCalls(d, i), PickTexture)
      == if d.kind == Geometry || d.vaos[i] == -1 then []
         else NonNegative(d.textures[i]) + NonNegative(d.normalMaps[i]) + NonNegative(d.specularMaps[i])
  {
    DrawSlotCollect(d.world, d.vaos[i], d.counts[i]);
    if d.kind == Character && d.vaos[i] != -1 {
      TextureBindCollect(0, d.textures[i]);
      TextureBindCollect(1, d.normalMaps[i]);
      TextureBindCollect(2, d.specularMaps[i]);
      CharacterSlotCollect(d, i, PickTexture);
    }
  }

  /** One slot sets the node's world matrix once per draw: once, or never when it issues nothing. */
  lemma SlotWorlds(d: DrawState, i: nat)
    requires SlotsReady(d) && d.kind != Root && i < |d.counts|
    ensures Collect(SlotCalls(d, i), PickWorld) == if d.kind == Character && d.vaos[i] == -1 then [] else [d.world]
  {
    DrawSlotCollect(d.world, d.vaos[i], d.counts[i]);
    if d.kind == Character && d.vaos[i] != -1 {
      TextureBindCollect(0, d.textures[i]);
      TextureBindCollect(1, d.normalMaps[i]);
      TextureBindCollect(2, d.specularMaps[i]);
      CharacterSlotCollect(d, i, PickWorld);
    }
  }

  function NonNegative(texture: int): seq<int> {
    if texture >= 0 then [texture] else []
  }

  /** What `pick` extracts from each chunk. */
  function Picked<T>(chunks: seq<seq<GlCall>>, pick: GlCall -> seq<T>): seq<seq<T>> {
    seq(|chunks|, i requires 0 <= i < |chunks| => Collect(chunks[i], pick))
  }

  /** Collecting over joined chunks is joining what is collected from each chunk. */
  lemma {:induction false} CollectConcat<T>(chunks: seq<seq<GlCall>>, pick: GlCall -> seq<T>)
    ensures Collect(Concat(chunks), pick) == Concat(Picked(chunks, pick))
    decreases |chunks|
  {
    if chunks != [] {
      var prefix := chunks[..|chunks| - 1];
      CollectConcat(prefix, pick);
      CollectAppend(Concat(prefix), chunks[|chunks| - 1], pick);
      assert Picked(chunks, pick)[..|chunks| - 1] == Picked(prefix, pick);
    }
  }

  /** An item of the joined chunks comes from one of them. */
  lemma {:induction false} ConcatMember<T>(chunks: seq<seq<T>>, x: T)
    requires x in Concat(chunks)
    ensures exists i | 0 <= i < |chunks| :: x in chunks[i]
    decreases |chunks|
  {
    var prefix := chunks[..|chunks| - 1];
    if x !in chunks[|chunks| - 1] {
      ConcatMember(prefix, x);
      var i :| 0 <= i < |prefix| && x in prefix[i];
      assert chunks[i] == prefix[i];
    }
  }

  /** Joining empty chunks gives nothing. */
  lemma {:induction false} ConcatEmpty<T>(chunks: seq<seq<T>>)
    requires forall i | 0 <= i < |chunks| :: chunks[i] == []
    ensures Concat(chunks) == []
    decreases |chunks|
  {
    if chunks != [] {
      ConcatEmpty(chunks[..|chunks| - 1]);
    }
  }

  /** Joining the one-item chunks of a sequence gives the sequence back. */
  lemma {:induction false} ConcatSingletons<T>(chunks: seq<seq<T>>, s: seq<T>)
    requires |chunks| == |s| && forall i | 0 <= i < |s| :: chunks[i] == [s[i]]
    ensures Concat(chunks) == s
    decreases |s|
  {
    if s != [] {
      ConcatSingletons(chunks[..|s| - 1], s[..|s| - 1]);
    }
  }

  /** The kept items are the per-slot kept items joined. */
  lemma {:induction false} KeptJoined<T>(vaos: seq<int>, items: seq<T>, chunks: seq<seq<T>>)
    requires |chunks| == |items| <= |vaos|
    requires forall i | 0 <= i < |items| :: chunks[i] == if vaos[i] == -1 then [] else [items[i]]
    ensures Concat(chunks) == Kept(vaos, items, |items|)
    decreases |items|
  {
    if items != [] {
      var k := |items| - 1;
      KeptJoined(vaos[..k], items[..k], chunks[..k]);
      KeptPrefix(vaos, items, vaos[..k], items[..k], k);
    }
  }

  /** Kept over the first k slots depends only on those slots. */
  lemma {:induction false} KeptPrefix<T>(vaos: seq<int>, items: seq<T>, vaos': seq<int>, items': seq<T>, k: nat)
    requires k <= |items| <= |vaos| && k <= |items'| <= |vaos'|
    requires vaos[..k] == vaos'[..k] && items[..k] == items'[..k]
    ensures Kept(vaos, items, k) == Kept(vaos', items', k)
    decreases k
  {
    if k > 0 {
      assert vaos[k - 1] == vaos[..k][k - 1] && vaos'[k - 1] == vaos'[..k][k - 1];
      assert items[k - 1] == items[..k][k - 1] && items'[k - 1] == items'[..k][k - 1];
      assert vaos[..k - 1] == vaos[..k][..k - 1] && vaos'[..k - 1] == vaos'[..k][..k - 1];
      assert items[..k - 1] == items[..k][..k - 1] && items'[..k - 1] == items'[..k][..k - 1];
      KeptPrefix(vaos, items, vaos', items', k - 1);
    }
  }

  lemma CollectSingle<T>(x: GlCall, pick: GlCall -> seq<T>)
    ensures Collect([x], pick) == pick(x)
  {
    assert [x][..0] == [];
    assert Collect([x], pick) == Collect([], pick) + pick(x);
  }

  /** What a node's own calls carry: that of the type uniform, then that of each slot in order. */
  lemma OwnCollect<T>(d: DrawState, pick: GlCall -> seq<T>)
    requires SlotsReady(d)
    ensures d.kind == Root ==> Collect(OwnCalls(d), pick) == pick(TypeUniform(d.kind))
    ensures d.kind != Root ==>
      Collect(OwnCalls(d), pick) == pick(TypeUniform(d.kind)) + Concat(Picked(SlotChunks(d), pick))
  {
    var head := [TypeUniform(d.kind)];
    var rest := if d.kind == Root then [] else Concat(SlotChunks(d));
    CollectSingle(TypeUniform(d.kind), pick);
    CollectAppend(head, rest, pick);
    if d.kind != Root {
      CollectConcat(SlotChunks(d), pick);
    }
  }

  /** The type uniform comes first and is the node's only one. */
  lemma OwnTypes(d: DrawState)
    requires SlotsReady(d)
    ensures OwnCalls(d)[0] == TypeUniform(d.kind)
    ensures Collect(OwnCalls(d), PickType) == [d.kind]
  {
    OwnCollect(d, PickType);
    if d.kind != Root {
      var picked := Picked(SlotChunks(d), PickType);
      forall i | 0 <= i < |picked|
        ensures picked[i] == []
      {
        SlotSetsNoType(d, i);
      }
      ConcatEmpty(picked);
    }
  }

  /** A node never binds a negative texture id. */
  lemma OwnTextures(d: DrawState)
    requires SlotsReady(d)
    ensures forall t | t in Collect(OwnCalls(d), PickTexture) :: t >= 0
  {
    OwnCollect(d, PickTexture);
    if d.kind != Root {
      SlotsBindNoNegative(d, Picked(SlotChunks(d), PickTexture));
    }
  }

  /** No slot of a GEOMETRY or CHARACTER node binds a negative texture id. */
  lemma SlotsBindNoNegative(d: DrawState, textures: seq<seq<int>>)
    requires SlotsReady(d) && d.kind != Root
    requires textures == Picked(SlotChunks(d), PickTexture)
    ensures forall t | t in Concat(textures) :: t >= 0
  {
    forall t | t in Concat(textures)
      ensures t >= 0
    {
      ConcatMember(textures, t);
      var i :| 0 <= i < |textures| && t in textures[i];
      assert textures[i] == Collect(SlotCalls(d, i), PickTexture);
      SlotTextures(d, i);
      var diffuse, normal, specular := NonNegative(d.textures[i]), NonNegative(d.normalMaps[i]), NonNegative(d.specularMaps[i]);
      assert t in diffuse || t in normal || t in specular;
    }
  }

  /** The draws and vertex-array binds of a non-ROOT node's own calls are those of its slots. */
  lemma OwnSlots(d: DrawState)
    requires SlotsReady(d) && d.kind != Root
    ensures DrawnCounts(OwnCalls(d)) == Concat(Picked(SlotChunks(d), PickDraw))
    ensures Collect(OwnCalls(d), PickVao) == Concat(Picked(SlotChunks(d), PickVao))
  {
    OwnCollect(d, PickDraw);
    OwnCollect(d, PickVao);
  }

  /** A GEOMETRY node draws once per index count, draw i with vertex array i and count i. */
  lemma GeometryDraws(d: DrawState)
    requires SlotsReady(d) && d.kind == Geometry
    ensures DrawnCounts(OwnCalls(d)) == d.counts
    ensures Collect(OwnCalls(d), PickVao) == d.vaos[..|d.counts|]
  {
    OwnSlots(d);
    var chunks := SlotChunks(d);
    forall i | 0 <= i < |chunks|
      ensures Picked(chunks, PickDraw)[i] == [d.counts[i]]
      ensures Picked(chunks, PickVao)[i] == [d.vaos[..|d.counts|][i]]
    {
      SlotDraws(d, i);
      SlotBinds(d, i);
    }
    ConcatSingletons(Picked(chunks, PickDraw), d.counts);
    ConcatSingletons(Picked(chunks, PickVao), d.vaos[..|d.counts|]);
  }

  /**
   * A CHARACTER node draws once per slot whose vertex array is not -1, in slot
   * order, binding that slot's vertex array and drawing that slot's count.
   */
  lemma CharacterDraws(d: DrawState)
    requires SlotsReady(d) && d.kind == Character
    ensures DrawnCounts(OwnCalls(d)) == Kept(d.vaos, d.counts, |d.counts|)
    ensures Collect(OwnCalls(d), PickVao) == Kept(d.vaos, d.vaos[..|d.counts|], |d.counts|)
  {
    OwnSlots(d);
    var draws := Picked(SlotChunks(d), PickDraw);
    forall i | 0 <= i < |draws|
      ensures draws[i] == if d.vaos[i] == -1 then [] else [d.counts[i]]
    {
      SlotDraws(d, i);
    }
    KeptJoined(d.vaos, d.counts, draws);
    CharacterBinds(d, Picked(SlotChunks(d), PickVao));
  }

  /** The vertex arrays a CHARACTER node's slots bind, joined, are those of its present slots. */
  lemma CharacterBinds(d: DrawState, binds: seq<seq<int>>)
    requires SlotsReady(d) && d.kind == Character
    requires binds == Picked(SlotChunks(d), PickVao)
    ensures Concat(binds) == Kept(d.vaos, d.vaos[..|d.counts|], |d.counts|)
  {
    var present := d.vaos[..|d.counts|];
    forall i | 0 <= i < |binds|
      ensures binds[i] == if d.vaos[i] == -1 then [] else [present[i]]
    {
      SlotBinds(d, i);
    }
    KeptJoined(d.vaos, present, binds);
  }

  /** With no -1 sentinel among its vertex arrays, a CHARACTER node draws every slot, in slot order. */
  lemma CharacterDrawsAll(d: DrawState)
    requires SlotsReady(d) && d.kind == Character
    requires forall i | 0 <= i < |d.counts| :: d.vaos[i] != -1
    ensures DrawnCounts(OwnCalls(d)) == d.counts
  {
    CharacterDraws(d);
    KeptAll(d.vaos, d.counts, |d.counts|);
    assert d.counts[..|d.counts|] == d.counts;
  }

  /** A CHARACTER node never binds the -1 vertex array. */
  lemma CharacterSkipsSentinel(d: DrawState)
    requires SlotsReady(d) && d.kind == Character
    ensures forall v | v in Collect(OwnCalls(d), PickVao) :: v != -1
  {
    OwnCollect(d, PickVao);
    SlotsSkipSentinel(d, Picked(SlotChunks(d), PickVao));
  }

  /** No slot of a CHARACTER node contributes the -1 vertex array. */
  lemma SlotsSkipSentinel(d: DrawState, vaos: seq<seq<int>>)
    requires SlotsReady(d) && d.kind == Character
    requires vaos == Picked(SlotChunks(d), PickVao)
    ensures forall v | v in Concat(vaos) :: v != -1
  {
    forall v | v in Concat(vaos)
      ensures v != -1
    {
      ConcatMember(vaos, v);
      var i :| 0 <= i < |vaos| && v in vaos[i];
      SlotBinds(d, i);
    }
  }

  /**
   * Every draw in `calls` comes right after the model-matrix uniform `world`
   * and a vertex-array bind, and every vertex-array bind right before a draw:
   * the n-th bind is the one the n-th draw uses.
   */
  predicate DrawsFramed(calls: seq<GlCall>, world: Mat) {
    && (forall k | 0 <= k < |calls| && calls[k].DrawTriangles? ::
          2 <= k && calls[k - 2] == ModelMatrix(world) && calls[k - 1].BindVertexArray?)
    && (forall k | 0 <= k < |calls| && calls[k].BindVertexArray? ::
          k + 1 < |calls| && calls[k + 1].DrawTriangles?)
  }

  lemma DrawsFramedAppend(a: seq<GlCall>, b: seq<GlCall>, world: Mat)
    requires DrawsFramed(a, world) && DrawsFramed(b, world)
    ensures DrawsFramed(a + b, world)
  {
    var ab := a + b;
    forall k | 0 <= k < |ab| && ab[k].DrawTriangles?
      ensures 2 <= k && ab[k - 2] == ModelMatrix(world) && ab[k - 1].BindVertexArray?
    {
      if k >= |a| {
        assert ab[k] == b[k - |a|];
        assert ab[k - 2] == b[k - |a| - 2] && ab[k - 1] == b[k - |a| - 1];
      } else {
        assert ab[k] == a[k];
      }
    }
    forall k | 0 <= k < |ab| && ab[k].BindVertexArray?
      ensures k + 1 < |ab| && ab[k + 1].DrawTriangles?
    {
      if k >= |a| {
        assert ab[k] == b[k - |a|] && ab[k + 1] == b[k - |a| + 1];
      } else {
        assert ab[k] == a[k] && ab[k + 1] == a[k + 1];
      }
    }
  }

  lemma {:induction false} DrawsFramedConcat(chunks: seq<seq<GlCall>>, world: Mat)
    requires forall i | 0 <= i < |chunks| :: DrawsFramed(chunks[i], world)
    ensures DrawsFramed(Concat(chunks), world)
    decreases |chunks|
  {
    if chunks != [] {
      DrawsFramedConcat(chunks[..|chunks| - 1], world);
      DrawsFramedAppend(Concat(chunks[..|chunks| - 1]), chunks[|chunks| - 1], world);
    }
  }

  /** Within one slot, the draw follows the node's world matrix and the slot's vertex-array bind. */
  lemma SlotFramed(d: DrawState, i: nat)
    requires SlotsReady(d) && d.kind != Root && i < |d.counts|
    ensures DrawsFramed(SlotCalls(d, i), d.world)
  {
    var draw := DrawSlot(d.world, d.vaos[i], d.counts[i]);
    assert DrawsFramed(draw, d.world);
    if d.kind == Character && d.vaos[i] != -1 {
      var a, b, c := TextureBind(0, d.textures[i]), TextureBind(1, d.normalMaps[i]), TextureBind(2, d.specularMaps[i]);
      assert DrawsFramed(a, d.world) && DrawsFramed(b, d.world) && DrawsFramed(c, d.world);
      DrawsFramedAppend(a, b, d.world);
      DrawsFramedAppend(a + b, c, d.world);
      DrawsFramedAppend(a + b + c, draw, d.world);
    }
  }

  /** Joined chunks of pairwise equal lengths have equal lengths. */
  lemma {:induction false} ConcatSameLength<T, U>(a: seq<seq<T>>, b: seq<seq<U>>)
    requires |a| == |b| && forall i | 0 <= i < |a| :: |a[i]| == |b[i]|
    ensures |Concat(a)| == |Concat(b)|
    decreases |a|
  {
    if a != [] {
      ConcatSameLength(a[..|a| - 1], b[..|b| - 1]);
    }
  }

  /**
   * Each draw of a node is issued with the node's own world matrix: the node
   * sets that matrix exactly once per draw and no other, and every draw comes
   * right after it and a vertex-array bind.
   */
  lemma DrawsUseWorldMatrix(d: DrawState)
    requires SlotsReady(d)
    ensures |Collect(OwnCalls(d), PickWorld)| == |DrawnCounts(OwnCalls(d))|
    ensures forall w | w in Collect(OwnCalls(d), PickWorld) :: w == d.world
    ensures DrawsFramed(OwnCalls(d), d.world)
  {
    OwnCollect(d, PickWorld);
    OwnCollect(d, PickDraw);
    if d.kind != Root {
      SlotsUseWorld(d, Picked(SlotChunks(d), PickWorld), Picked(SlotChunks(d), PickDraw));
      var chunks := SlotChunks(d);
      forall i | 0 <= i < |chunks|
        ensures DrawsFramed(chunks[i], d.world)
      {
        SlotFramed(d, i);
      }
      DrawsFramedConcat(chunks, d.world);
      DrawsFramedAppend([TypeUniform(d.kind)], Concat(chunks), d.world);
    }
  }

  /** The slots of a GEOMETRY or CHARACTER node set their world matrix once per draw, and only the node's own. */
  lemma SlotsUseWorld(d: DrawState, worlds: seq<seq<Mat>>, draws: seq<seq<nat>>)
    requires SlotsReady(d) && d.kind != Root
    requires worlds == Picked(SlotChunks(d), PickWorld) && draws == Picked(SlotChunks(d), PickDraw)
    ensures |Concat(worlds)| == |Concat(draws)|
    ensures forall w | w in Concat(worlds) :: w == d.world
  {
    forall i | 0 <= i < |worlds|
      ensures |worlds[i]| == |draws[i]| && forall w | w in worlds[i] :: w == d.world
    {
      SlotWorlds(d, i);
      SlotDraws(d, i);
    }
    ConcatSameLength(worlds, draws);
    forall w | w in Concat(worlds)
      ensures w == d.world
    {
      ConcatMember(worlds, w);
    }
  }

  /** A ROOT node sets its type and draws nothing. */
  lemma RootDrawsNothing(d: DrawState)
    requires d.kind == Root
    ensures OwnCalls(d) == [TypeUniform(Root)]
    ensures DrawnCounts(OwnCalls(d)) == []
  {
    assert [TypeUniform(Root)][..0] == [];
  }

  /** With no -1 sentinel among the vertex arrays, every slot's item is kept. */
  lemma {:induction false} KeptAll<T>(vaos: seq<int>, items: seq<T>, k: nat)
    requires k <= |items| <= |vaos|
    requires forall i | 0 <= i < k :: vaos[i] != -1
    ensures Kept(vaos, items, k) == items[..k]
    decreases k
  {
    if k > 0 {
      KeptAll(vaos, items, k - 1);
      assert items[..k] == items[..k - 1] + [items[k - 1]];
    }
  }

  /** The nodes of a subtree in the order the walk visits them: the node, then each child's subtree in order. */
  ghost function Preorder(n: Node): seq<Node>
    requires n.Valid()
    decreases n.Repr, 1
  {
    [n] + PreorderFrom(n, |n.children|)
  }

  ghost function PreorderFrom(n: Node, k: nat): seq<Node>
    requires n.Valid() && k <= |n.children|
    decreases n.Repr, 0, k
  {
    if k == 0 then [] else PreorderFrom(n, k - 1) + Preorder(n.children[k - 1])
  }

  ghost function KindsOf(nodes: seq<Node>): seq<NodeType>
    reads nodes
    decreases |nodes|
  {
    if nodes == [] then [] else KindsOf(nodes[..|nodes| - 1]) + [nodes[|nodes| - 1].kind]
  }

  lemma {:induction false} KindsOfAppend(a: seq<Node>, b: seq<Node>)
    ensures KindsOf(a + b) == KindsOf(a) + KindsOf(b)
    decreases |b|
  {
    if b == [] {
      assert a + b == a;
    } else {
      assert (a + b)[..|a + b| - 1] == a + b[..|b| - 1];
      KindsOfAppend(a, b[..|b| - 1]);
    }
  }

  /** The distinct items of a sequence. */
  ghost function Elements<T>(s: seq<T>): set<T> {
    set x | x in s
  }

  ghost predicate Distinct<T>(s: seq<T>) {
    forall i, j | 0 <= i < j < |s| :: s[i] != s[j]
  }

  lemma DistinctAppend<T>(a: seq<T>, b: seq<T>)
    requires Distinct(a) && Distinct(b) && Elements(a) !! Elements(b)
    ensures Distinct(a + b)
    ensures Elements(a + b) == Elements(a) + Elements(b)
  {
    var ab := a + b;
    forall i, j | 0 <= i < j < |ab|
      ensures ab[i] != ab[j]
    {
      if j < |a| {
        assert ab[i] == a[i] && ab[j] == a[j];
      } else if i >= |a| {
        assert ab[i] == b[i - |a|] && ab[j] == b[j - |a|];
      } else {
        assert ab[i] == a[i] && ab[j] == b[j - |a|];
        assert ab[i] in Elements(a) && ab[j] in Elements(b);
      }
    }
  }

  /** A footprint that misses every node's footprint misses their union. */
  lemma {:induction false} UnionReprDisjoint(nodes: seq<Node>, other: set<Node>)
    requires forall i | 0 <= i < |nodes| :: nodes[i].Repr !! other
    ensures UnionRepr(nodes) !! other
    decreases |nodes|
  {
    if nodes != [] {
      UnionReprDisjoint(nodes[..|nodes| - 1], other);
    }
  }

  /** The pre-order lists every node of the subtree, and each of them once. */
  lemma {:induction false} PreorderNodes(n: Node)
    requires n.Valid() && n.ReprExact()
    ensures Elements(Preorder(n)) == n.Repr
    ensures Distinct(Preorder(n))
    decreases n.Repr, 1
  {
    var later := PreorderFrom(n, |n.children|);
    PreorderFromNodes(n, |n.children|);
    assert n.children[..|n.children|] == n.children;
    forall i | 0 <= i < |n.children|
      ensures n.children[i].Repr !! {n}
    {
    }
    UnionReprDisjoint(n.children, {n});
    DistinctAppend([n], later);
  }

  /** Children 0 .. k-1 contribute every node of their subtrees, and each of them once. */
  lemma {:induction false} PreorderFromNodes(n: Node, k: nat)
    requires n.Valid() && n.ReprExact() && k <= |n.children|
    ensures Elements(PreorderFrom(n, k)) == UnionRepr(n.children[..k])
    ensures Distinct(PreorderFrom(n, k))
    decreases n.Repr, 0, k
  {
    if k > 0 {
      var c := n.children[k - 1];
      var earlier := n.children[..k - 1];
      assert n !in c.Repr;
      PreorderFromNodes(n, k - 1);
      PreorderNodes(c);
      assert n.children[..k][..k - 1] == earlier;
      forall i | 0 <= i < |earlier|
        ensures earlier[i].Repr !! c.Repr
      {
      }
      UnionReprDisjoint(earlier, c.Repr);
      DistinctAppend(PreorderFrom(n, k - 1), Preorder(c));
    }
  }

  predicate AllRenderable(nodes: seq<Node>)
    reads nodes
  {
    forall i | 0 <= i < |nodes| :: nodes[i].Renderable()
  }

  /** The own calls of each of `nodes`, one node after the other. */
  function WalkOf(nodes: seq<Node>): seq<GlCall>
    requires AllRenderable(nodes)
    reads nodes
    decreases |nodes|
  {
    if nodes == [] then [] else WalkOf(nodes[..|nodes| - 1]) + OwnCalls(nodes[|nodes| - 1].Draw())
  }

  lemma AllRenderableAppend(a: seq<Node>, b: seq<Node>)
    requires AllRenderable(a) && AllRenderable(b)
    ensures AllRenderable(a + b)
  {
    var ab := a + b;
    forall i | 0 <= i < |ab|
      ensures ab[i].Renderable()
    {
      if i < |a| {
        assert ab[i] == a[i];
      } else {
        assert ab[i] == b[i - |a|];
      }
    }
  }

  lemma {:induction false} WalkOfAppend(a: seq<Node>, b: seq<Node>)
    requires AllRenderable(a) && AllRenderable(b)
    ensures AllRenderable(a + b)
    ensures WalkOf(a + b) == WalkOf(a) + WalkOf(b)
    decreases |b|
  {
    AllRenderableAppend(a, b);
    if b == [] {
      assert a + b == a;
    } else {
      var ab, front, last := a + b, b[..|b| - 1], b[|b| - 1];
      assert AllRenderable(front);
      assert ab[..|ab| - 1] == a + front && ab[|ab| - 1] == last;
      WalkOfAppend(a, front);
      calc {
        WalkOf(ab);
        WalkOf(a + front) + OwnCalls(last.Draw());
        WalkOf(a) + WalkOf(front) + OwnCalls(last.Draw());
        { AppendAssociative(WalkOf(a), WalkOf(front), OwnCalls(last.Draw())); }
        WalkOf(a) + WalkOf(b);
      }
    }
  }

  /**
   * The render walk is exactly the nodes' own calls taken in pre-order: a
   * node's calls, then each child's subtree in list order.
   */
  lemma {:induction false} RenderIsWalkOfPreorder(n: Node)
    requires n.Valid() && n.TreeRenderable()
    ensures AllRenderable(Preorder(n))
    ensures RenderTrace(n) == WalkOf(Preorder(n))
    decreases n.Repr, 1
  {
    ChildrenIsWalkOfPreorderFrom(n, |n.children|);
    assert [n][..0] == [];
    assert WalkOf([n]) == OwnCalls(n.Draw());
    WalkOfAppend([n], PreorderFrom(n, |n.children|));
  }

  lemma {:induction false} ChildrenIsWalkOfPreorderFrom(n: Node, k: nat)
    requires n.Valid() && n.TreeRenderable() && k <= |n.children|
    ensures AllRenderable(PreorderFrom(n, k))
    ensures ChildrenTrace(n, k) == WalkOf(PreorderFrom(n, k))
    decreases n.Repr, 0, k
  {
    if k > 0 {
      ChildReady(n, k - 1);
      ChildrenIsWalkOfPreorderFrom(n, k - 1);
      RenderIsWalkOfPreorder(n.children[k - 1]);
      WalkStep(n, k);
    }
  }

  /** Adding child k-1's subtree extends both the children's walk and their pre-order by that child's part. */
  lemma WalkStep(n: Node, k: nat)
    requires n.Valid() && n.TreeRenderable() && 0 < k <= |n.children|
    requires n.children[k - 1].Valid() && n.children[k - 1].TreeRenderable()
    requires AllRenderable(PreorderFrom(n, k - 1)) && AllRenderable(Preorder(n.children[k - 1]))
    requires ChildrenTrace(n, k - 1) == WalkOf(PreorderFrom(n, k - 1))
    requires RenderTrace(n.children[k - 1]) == WalkOf(Preorder(n.children[k - 1]))
    ensures AllRenderable(PreorderFrom(n, k))
    ensures ChildrenTrace(n, k) == WalkOf(PreorderFrom(n, k))
  {
    var earlier, below := PreorderFrom(n, k - 1), Preorder(n.children[k - 1]);
    WalkOfAppend(earlier, below);
    assert PreorderFrom(n, k) == earlier + below;
  }

  /**
   * The walk issues one type uniform per node, ROOT included, in pre-order:
   * a node before its children, children in list order.
   */
  lemma {:induction false} RenderVisitsPreorder(n: Node)
    requires n.Valid() && n.TreeRenderable()
    ensures Collect(RenderTrace(n), PickType) == KindsOf(Preorder(n))
    decreases n.Repr, 1
  {
    var own, rest := OwnCalls(n.Draw()), ChildrenTrace(n, |n.children|);
    var later := PreorderFrom(n, |n.children|);
    OwnTypes(n.Draw());
    ChildrenVisitPreorder(n, |n.children|);
    CollectAppend(own, rest, PickType);
    KindsOfAppend([n], later);
    assert [n][..0] == [];
    assert KindsOf([n]) == [n.kind];
    assert Collect(RenderTrace(n), PickType) == [n.kind] + KindsOf(later);
  }

  lemma {:induction false} ChildrenVisitPreorder(n: Node, k: nat)
    requires n.Valid() && n.TreeRenderable() && k <= |n.children|
    ensures Collect(ChildrenTrace(n, k), PickType) == KindsOf(PreorderFrom(n, k))
    decreases n.Repr, 0, k
  {
    if k > 0 {
      ChildReady(n, k - 1);
      ChildrenVisitPreorder(n, k - 1);
      RenderVisitsPreorder(n.children[k - 1]);
      KindsStep(n, k);
    }
  }

  /** Adding child k-1's subtree extends both the children's types and their pre-order's kinds by that child's part. */
  lemma KindsStep(n: Node, k: nat)
    requires n.Valid() && n.TreeRenderable() && 0 < k <= |n.children|
    requires n.children[k - 1].Valid() && n.children[k - 1].TreeRenderable()
    requires Collect(ChildrenTrace(n, k - 1), PickType) == KindsOf(PreorderFrom(n, k - 1))
    requires Collect(RenderTrace(n.children[k - 1]), PickType) == KindsOf(Preorder(n.children[k - 1]))
    ensures Collect(ChildrenTrace(n, k), PickType) == KindsOf(PreorderFrom(n, k))
  {
    var c := n.children[k - 1];
    CollectAppend(ChildrenTrace(n, k - 1), RenderTrace(c), PickType);
    KindsOfAppend(PreorderFrom(n, k - 1), Preorder(c));
  }

  /** Every texture the walk binds has a non-negative id: the -1 "no texture" sentinel is never bound. */
  lemma {:induction false} RenderBindsNoNegativeTexture(n: Node)
    requires n.Valid() && n.TreeRenderable()
    ensures forall t | t in Collect(RenderTrace(n), PickTexture) :: t >= 0
    decreases n.Repr, 1
  {
    OwnTextures(n.Draw());
    ChildrenBindNoNegativeTexture(n, |n.children|);
    CollectAppend(OwnCalls(n.Draw()), ChildrenTrace(n, |n.children|), PickTexture);
  }

  lemma {:induction false} ChildrenBindNoNegativeTexture(n: Node, k: nat)
    requires n.Valid() && n.TreeRenderable() && k <= |n.children|
    ensures forall t | t in Collect(ChildrenTrace(n, k), PickTexture) :: t >= 0
    decreases n.Repr, 0, k
  {
    if k > 0 {
      ChildReady(n, k - 1);
      ChildrenBindNoNegativeTexture(n, k - 1);
      RenderBindsNoNegativeTexture(n.children[k - 1]);
      CollectAppend(ChildrenTrace(n, k - 1), RenderTrace(n.children[k - 1]), PickTexture);
    }
  }

  // ---------------------------------------------------------------------------
  // The character node built from the loaded model

  /** The index count of each mesh, in order. */
  function IndexCounts(meshes: seq<Mesh>): (counts: seq<nat>)
    ensures |counts| == |meshes|
    ensures forall i | 0 <= i < |meshes| :: counts[i] == |meshes[i].indices|
    decreases |meshes|
  {
    if meshes == [] then [] else IndexCounts(meshes[..|meshes| - 1]) + [|meshes[|meshes| - 1].indices|]
  }

  /** Appending item i to a prefix of s extends the prefix by one. */
  lemma PrefixStep<T>(a: seq<T>, s: seq<T>, i: nat)
    requires i < |s|
    ensures a + s[..i] + [s[i]] == a + s[..i + 1]
  {
    assert s[..i + 1] == s[..i] + [s[i]];
  }

  /**
   * One slot per loaded mesh appended to the character node: its vertex
   * array, its index count, and its diffuse, normal and specular handles.
   * The vertex array handles come from buffer generation, outside the model.
   */
  method AttachCharacterMeshes(character: Node, m: Model, vaoIds: seq<nat>)
    requires |vaoIds| == |m.meshes| && TexturesAligned(m.State())
    modifies character`vertexArrayObjectIDs, character`vaoIndexCounts
    modifies character`textureIDs, character`normalMapIDs, character`specularMapIDs
    ensures character.vertexArrayObjectIDs == old(character.vertexArrayObjectIDs) + vaoIds
    ensures character.vaoIndexCounts == old(character.vaoIndexCounts) + IndexCounts(m.meshes)
    ensures character.textureIDs == old(character.textureIDs) + m.diffuseMaps
    ensures character.normalMapIDs == old(character.normalMapIDs) + m.normalMaps
    ensures character.specularMapIDs == old(character.specularMapIDs) + m.specularMaps
    ensures unchanged(character`kind, character`position, character`rotation, character`scale)
    ensures unchanged(character`referencePoint, character`currentTransformationMatrix)
  {
    var meshes, diffuse, normal, specular := m.meshes, m.diffuseMaps, m.normalMaps, m.specularMaps;
    ghost var vaos0, counts0 := character.vertexArrayObjectIDs, character.vaoIndexCounts;
    ghost var textures0, normals0, speculars0 := character.textureIDs, character.normalMapIDs, character.specularMapIDs;
    for i := 0 to |meshes|
      invariant character.vertexArrayObjectIDs == vaos0 + vaoIds[..i]
      invariant character.vaoIndexCounts == counts0 + IndexCounts(meshes[..i])
      invariant character.textureIDs == textures0 + diffuse[..i]
      invariant character.normalMapIDs == normals0 + normal[..i]
      invariant character.specularMapIDs == speculars0 + specular[..i]
    {
      PrefixStep(vaos0, vaoIds, i);
      PrefixStep(textures0, diffuse, i);
      PrefixStep(normals0, normal, i);
      PrefixStep(speculars0, specular, i);
      assert meshes[..i + 1][..i] == meshes[..i];
      AppendAssociative(counts0, IndexCounts(meshes[..i]), [|meshes[i].indices|]);
      character.vertexArrayObjectIDs := character.vertexArrayObjectIDs + [vaoIds[i]];
      character.vaoIndexCounts := character.vaoIndexCounts + [|meshes[i].indices|];
      character.textureIDs := character.textureIDs + [diffuse[i]];
      character.normalMapIDs := character.normalMapIDs + [normal[i]];
      character.specularMapIDs := character.specularMapIDs + [specular[i]];
    }
    assert vaoIds[..|meshes|] == vaoIds;
    assert meshes[..|meshes|] == meshes;
    assert diffuse[..|meshes|] == diffuse;
    assert normal[..|meshes|] == normal;
    assert specular[..|meshes|] == specular;
  }

  /**
   * A character node whose slots were all appended from a loaded model can
   * be rendered, and draws every mesh once, in mesh order, with its own
   * index count.
   */
  lemma CharacterDrawsEveryMesh(character: Node, meshes: seq<Mesh>, vaoIds: seq<nat>)
    requires character.kind == Character
    requires character.vertexArrayObjectIDs == vaoIds && |vaoIds| == |meshes|
    requires character.vaoIndexCounts == IndexCounts(meshes)
    requires |character.textureIDs| == |character.normalMapIDs| == |character.specularMapIDs| == |meshes|
    ensures character.Renderable()
    ensures DrawnCounts(OwnCalls(character.Draw())) == IndexCounts(meshes)
  {
    var d := character.Draw();
    forall i | 0 <= i < |d.counts|
      ensures d.vaos[i] != -1
    {
      assert d.vaos[i] == vaoIds[i];
    }
    CharacterDrawsAll(d);
  }

  /**
   * The character node as the set-up builds it: a fresh CHARACTER node
   * without children, scaled to one hundredth, with one slot per loaded
   * mesh. It can be rendered, and draws every mesh's index count in mesh
   * order.
   */
  method BuildCharacterNode(m: Model, vaoIds: seq<nat>) returns (character: Node)
    requires |vaoIds| == |m.meshes| && TexturesAligned(m.State())
    ensures fresh(character) && character.Valid() && character.ReprExact()
    ensures character.kind == Character && character.children == []
    ensures character.scale == Vec3(0.01, 0.01, 0.01)
    ensures character.vertexArrayObjectIDs == vaoIds
    ensures character.vaoIndexCounts == IndexCounts(m.meshes)
    ensures character.textureIDs == m.diffuseMaps
    ensures character.normalMapIDs == m.normalMaps
    ensures character.specularMapIDs == m.specularMaps
    ensures character.Renderable()
    ensures DrawnCounts(OwnCalls(character.Draw())) == IndexCounts(m.meshes)
  {
    character := new Node(Character, []);
    character.scale := Vec3(0.01, 0.01, 0.01);
    AttachCharacterMeshes(character, m, vaoIds);
    CharacterDrawsEveryMesh(character, m.meshes, vaoIds);
  }
}

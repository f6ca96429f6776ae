# Skeletal-animation renderer: loader, skinning, scene graph and input

This project is a Dafny model of the logic at the centre of a small OpenGL renderer for skinned characters. It covers five parts:

- **Model loader** (`ModelLoader`, model.dfy). Constructing a `Model` walks the imported scene from its root node:
  - a node's own meshes come first, then each child's subtree;
  - every mesh is turned into a `Mesh` holding four per-vertex bone-ID/weight slots and the joined face indices;
  - processing a mesh pushes one texture handle onto each of four texture lists (diffuse, specular, normal, height);
  - the bone table (`boneProps`, with `boneCounter`) is extended as new bones appear.

  The class `Model` keeps the loader's fields and its methods follow the loader's loops. They are proved against `ImportAll`, which specifies a whole import. The lemmas about `ImportAll` state what an import promises:
  - meshes are appended in preorder;
  - the texture lists stay aligned with the mesh list;
  - the bone table only grows;
  - every bone ID stored in a slot indexes the table.
- **Skinning** (`Skinning`, skinning.dfy). `extractBoneWeightForVertices` does three things, each specified by a function here and described by lemmas:
  - it reads at most 100 bones per mesh;
  - it gives each bone an ID, either by appending the bone to the table or by looking its name up;
  - it writes each influence into the first free slot of its vertex.
- **Matrices** (`Matrices`, matrices.dfy). Transforms are ordered products of glm factors, so the proofs are about composition order, not numbers. `aiMatrix4x4ToGlm` is modelled as the change from row storage to column storage.
- **Scene graph** (`SceneGraph`, scene.dfy):
  - nodes own their children;
  - `updateNodeTransformations` composes world matrices down the tree;
  - `renderNode` is modelled by the sequence of GL calls it issues;
  - the CHARACTER node's per-mesh vectors are built from the loaded model.
- **Bone uniforms** (`BoneUniforms`, uniforms.dfy). `setUniformBoneTransforms` makes one write per bone matrix, to the uniform named `boneTransforms[i]`.
- **Frame input** (`FrameInput`, input.dfy). `processInput` handles one frame:
  - the window and mouse flags;
  - the W/S/A/D/SPACE priority chain, which picks one animation clip and moves the character and the camera.

## Model

| member | source | states |
|---|---|---|
| Matrices.AiMatrix4x4ToGlm | src/model.hpp:317-325 | the conversion stores Assimp row r, column c as glm column c, row r (`to[c][r]`): the column-major grid is the transpose of the row-major one |
| Matrices.TransposeTwice | src/model.hpp:317-325 | swapping the rows and columns of a 4×4 grid twice gives back the grid |
| Matrices.ConversionKeepsEntries | src/model.hpp:317-325 | after the conversion, the entry at row r, column c of the glm matrix equals the entry at row r, column c of the Assimp matrix, for all 16 positions |
| Matrices.ConversionRoundTrip | src/model.hpp:317-325 | converting to glm storage and back gives the original Assimp matrix |
| Skinning.EntryFor | src/model.hpp:87 | the table entry for a new bone: its name and its converted offset matrix |
| Skinning.FillSlot | src/model.hpp:113-121 | the four-slot loop with its break: the lowest slot with a negative ID takes the bone ID and weight; with no such slot nothing changes |
| Skinning.BonesProcessed | src/model.hpp:80-82 | the number of bones read is at most the bone count and at most 100, and it equals one of the two |
| Skinning.FirstFreeSlot | src/model.hpp:113-116 | a slot found is one of the four |
| Skinning.FirstFreeSlotIsFirst | src/model.hpp:113-121 | the slot found is exactly the lowest slot with a negative ID; none is found exactly when all four IDs are non-negative |
| Skinning.FillSlotSlot | src/model.hpp:113-121 | slot j takes the bone ID and weight exactly when it is the lowest free slot; every other slot keeps its ID and weight |
| Skinning.FillSlotKeepsFilled | src/model.hpp:115-120 | a taken slot is never overwritten |
| Skinning.FillSlotDropsWhenFull | src/model.hpp:112-121 | with all four slots taken, the influence is dropped silently: first come, not most influential |
| Skinning.Filled | src/model.hpp:113-121 | a vertex has at most four taken slots |
| Skinning.FillSlotCounts | src/model.hpp:113-121 | a non-negative ID takes exactly one more slot unless all four were taken |
| Skinning.FillSlotKeepsPacked | src/model.hpp:113-121 | when the taken slots are a prefix, they stay a prefix after a fill |
| Skinning.BoneIdFor | src/model.hpp:84-98 | the ID bone b gets: b itself when b is at or past the table size, otherwise the index the name lookup finds, or -1 when it finds none |
| Skinning.RegistryAfter | src/model.hpp:82-90 | the table after bones 0..b-1: each bone at or past the current size is appended as name plus converted offset; the others leave it alone |
| Skinning.FindBone | src/model.hpp:92-97 | the index found holds the name and no lower index does; when none is found, no entry has the name |
| Skinning.RegistryAfterShape | src/model.hpp:84-90 | after b bones the table has max(old size, b) entries, keeps its old entries, and holds bone k's name and offset at each new index k |
| Skinning.BoneIdNamesBone | src/model.hpp:84-99 | when every looked-up name exists, each bone read gets an ID (never -1) that indexes the final table at an entry with the bone's name |
| Skinning.AddInfluence | src/model.hpp:108-121 | only the weighted vertex's slots change, and they change as a first-free-slot fill; the buffer lengths are kept |
| Skinning.ApplyBoneWeights | src/model.hpp:102-122 | applying one bone's weights keeps both buffer lengths |
| Skinning.SkinAfter | src/model.hpp:82-123 | the buffers after the first b bones keep their lengths |
| Skinning.ApplyBoneWeightsFrame | src/model.hpp:108-121 | a vertex that none of the bone's weights names keeps its IDs and weights |
| Skinning.ApplyBoneWeightsKeepsTaken | src/model.hpp:113-121 | a taken slot keeps its ID and weight through all weights of a bone |
| Skinning.ApplyBoneWeightsKeepsIdsBelow | src/model.hpp:113-121 | when every slot holds -1 or an ID below n, applying a bone whose ID is below n keeps that true |
| Skinning.SkinAfterIdsIndexRegistry | src/model.hpp:82-123 | every bone ID written into a slot indexes the final bone table |
| Skinning.Unassigned | src/model.hpp:145-158 | the initial buffers have one entry per vertex and hold no bone ID |
| ModelLoader.LoadMaterialTextures | src/model.hpp:254-268 | the handle is non-negative exactly when the material has a texture of that type, and it is then the first such texture; otherwise it is negative (the -1 sentinel) |
| ModelLoader.Flatten | src/model.hpp:198-203 | the face index lists joined in face order |
| ModelLoader.ProcessedMesh | src/model.hpp:139-252 | the mesh processMesh returns: default slots for every vertex, then the first min(bones, 100) bones' weights applied under the IDs the table gives them, and the joined face indices |
| ModelLoader.ImportMesh | src/model.hpp:139-252 | one mesh processed: its mesh appended, the bone table extended by its bones, and one handle pushed on each of the four texture lists (normal from HEIGHT, height from AMBIENT) |
| ModelLoader.ImportAll | src/model.hpp:128-131 | the state after processing the given mesh indices one after the other, in list order |
| ModelLoader.PreorderMeshes | src/model.hpp:126-137 | the mesh indices in the order processNode reaches them: the node's own, then each child's subtree, children in list order |
| ModelLoader.ImportNode | src/model.hpp:126-137 | the state after processNode: the node's own meshes imported, then the child loop from child 0 |
| ModelLoader.ImportChildren | src/model.hpp:133-136 | the state after the child loop from child i on: child i's subtree, then the children after it |
| ModelLoader.FlattenAppend | src/model.hpp:198-203 | joining face index lists distributes over concatenation of the face list |
| ModelLoader.TriangleIndexCount | src/model.hpp:198-203 | with triangulated faces (three indices each) a mesh has 3·faces indices |
| ModelLoader.JoinFaceIndices | src/model.hpp:198-203 | the index loop yields every face's indices, faces in order |
| ModelLoader.DefaultSlots | src/model.hpp:145-158 | the vertex loop yields one (-1,-1,-1,-1)/(0,0,0,0) slot pair per vertex, in fresh buffers |
| ModelLoader.WriteFirstFreeSlot | src/model.hpp:113-121 | the four-slot loop with its break writes the influence exactly as a first-free-slot fill of that vertex does, and changes nothing else |
| ModelLoader.LookupBone | src/model.hpp:92-97 | the lookup loop returns the lowest index whose name matches, or -1 when no entry matches |
| ModelLoader.WriteBoneWeights | src/model.hpp:102-122 | the weights loop leaves the buffers equal to all of the bone's influences applied in order; it requires each vertexId to be below the buffer size (the corrected check) |
| ModelLoader.VertexCheckAdmitsOutOfRange | src/model.hpp:110 | for every vertex count n, the check as written accepts a weight naming vertex n, which has no slot in either buffer |
| ModelLoader.ImportAppend | src/model.hpp:126-137 | importing a + b is importing a, then b from where a left off; both parts can run |
| ModelLoader.ImportNodeSplit | src/model.hpp:126-137 | importing a subtree is importing the node's own meshes, then its children's subtrees |
| ModelLoader.ImportChildSplit | src/model.hpp:133-136 | importing children i, i+1, … is importing child i's subtree, then the children after it |
| ModelLoader.ImportNodeIsPreorder | src/model.hpp:126-137 | the recursive processNode (own meshes, then each child in turn) has the same effect as importing the subtree's mesh references in preorder |
| ModelLoader.ImportChildrenIsPreorder | src/model.hpp:133-136 | the child loop from child i on has the same effect as importing the later children's subtrees in preorder |
| ModelLoader.PreorderCovers | src/model.hpp:126-137 | the traversal visits a mesh index exactly when the subtree references it |
| ModelLoader.ChildrenFromCovers | src/model.hpp:133-136 | the child loop from child i visits a mesh index exactly when one of those children's subtrees references it |
| ModelLoader.ImportAppendsMeshes | src/model.hpp:126-137 | an import appends one mesh per visited index, in order. Each new mesh has the joined face indices of its source mesh, one slot pair per source vertex, and its own material's diffuse handle. The earlier meshes and the earlier entries of all four texture lists are kept, and all four texture lists stay as long as the mesh list |
| ModelLoader.ImportMeshKeepsBoneTable | src/model.hpp:84-90 | processing one mesh only appends to the bone table |
| ModelLoader.ImportKeepsBoneTable | src/model.hpp:84-90 | across a whole import, existing bone-table entries keep their index and value |
| ModelLoader.ImportIdsIndexBoneTable | src/model.hpp:77-124 | after an import, every bone ID stored in any vertex slot of any mesh is -1 or indexes the bone table |
| ModelLoader.Model.constructor | src/model.hpp:57-73 | starting from empty lists and a zero counter, the scene is processed from its root. The result is the preorder import of the whole tree, the counter equals the table size, and the texture lists are aligned with the mesh list |
| ModelLoader.Model.ExtractBoneWeightForVertices | src/model.hpp:77-124 | the bone loop leaves the table equal to the specification's table after min(bones, 100) bones, the counter equal to its size, and the buffers equal to the specification's buffers after those bones |
| ModelLoader.Model.RegisterBone | src/model.hpp:84-99 | a bone at or past the table size is appended with its index as ID and the counter incremented; otherwise its ID comes from the name lookup. The ID is never -1 when names resolve |
| ModelLoader.Model.SkinVertices | src/model.hpp:145-158 | default slots, then bone extraction (the call at src/model.hpp:247): the buffers and the table are the specification's after all bones read |
| ModelLoader.Model.PushMaterialTextures | src/model.hpp:234-244 | each texture list gets exactly one handle for the mesh's material: diffuse from DIFFUSE, specular from SPECULAR, normal from HEIGHT, height from AMBIENT |
| ModelLoader.Model.ProcessMesh | src/model.hpp:139-252 | the returned mesh is the specification's processed mesh for the current table; the table grows as the bones require, one handle is pushed per texture list, and the mesh list is left to the caller |
| ModelLoader.Model.PushProcessedMesh | src/model.hpp:130 | one iteration of the mesh loop is one mesh import step of the specification |
| ModelLoader.Model.ProcessMeshList | src/model.hpp:128-131 | the mesh loop imports the node's mesh references in list order |
| ModelLoader.Model.ProcessNode | src/model.hpp:126-137 | the new state is the recursive import of the node (own meshes, then children), which by ImportNodeIsPreorder is the preorder import |
| ModelLoader.Model.ProcessChildren | src/model.hpp:133-136 | the child loop imports every child's subtree, left to right |
| SceneGraph.Node.constructor | src/main.cpp:136-137 | a new node has its type and children, empty per-slot vectors, and a valid tree footprint |
| SceneGraph.Node.LocalTransform | src/main.cpp:384-391 | the local matrix is T(position)·T(ref)·Ry·Rx·Rz·S·T(-ref), factors in exactly that order: the orientation and scale pivot on the reference point |
| SceneGraph.UpdateNodeTransformations | src/main.cpp:382-399 | every node of the subtree ends with world = parent's world · local (the top node with the matrix passed in), and nothing but world matrices changes |
| SceneGraph.RootWorldIsLocal | src/main.cpp:299 | with the identity passed at the root, the root's world matrix is its local matrix |
| SceneGraph.WorldIsProductAlongPath | src/main.cpp:393-398 | after the pass, a node's world matrix is the matrix passed at the top times the local matrices along the path down to it |
| SceneGraph.TextureBind | src/main.cpp:410-423 | one guarded texture bind: the unit made active and the texture bound, or nothing when the id is negative |
| SceneGraph.DrawSlot | src/main.cpp:425-427 | one draw: the world matrix uniform, the vertex-array bind, the indexed-triangle draw with the slot's count |
| SceneGraph.SlotCalls | src/main.cpp:406-436 | slot i of a GEOMETRY node is its draw; slot i of a CHARACTER node is nothing when its vertex array is -1, otherwise the diffuse, normal and specular binds (units 0, 1, 2) then the draw |
| SceneGraph.OwnCalls | src/main.cpp:403-437 | a node's own calls: its type uniform, then the calls of its slots in slot order (none for ROOT) |
| SceneGraph.RenderTrace | src/main.cpp:401-443 | renderNode's calls: the node's own calls, then each child's walk in list order |
| SceneGraph.ChildrenTrace | src/main.cpp:439-442 | the walks of children 0..k-1 joined in list order |
| SceneGraph.ChildReady | src/main.cpp:439-442 | a child of a well-formed renderable tree is a smaller well-formed renderable tree |
| SceneGraph.RenderNode | src/main.cpp:401-443 | the calls issued are the node's own calls, then each child's walk in order (`RenderTrace`) |
| SceneGraph.RenderChildren | src/main.cpp:439-442 | the child loop issues every child's walk, in list order |
| SceneGraph.EmitOwnCalls | src/main.cpp:403-437 | the node's own calls: the type uniform, then the draw loop of its type |
| SceneGraph.CharacterSlotCollect | src/main.cpp:408-427 | a present CHARACTER slot carries its three guarded texture binds, then its draw |
| SceneGraph.TextureBindCollect | src/main.cpp:410-423 | a guarded texture bind draws nothing, binds no vertex array and sets no type; it binds its id exactly when the id is non-negative |
| SceneGraph.DrawSlotCollect | src/main.cpp:425-434 | one draw binds its vertex array and draws its count, and binds no texture |
| SceneGraph.SlotDraws | src/main.cpp:406-436 | a slot draws once with its own count, except a CHARACTER slot whose vertex array is -1, which draws nothing |
| SceneGraph.SlotBinds | src/main.cpp:406-436 | a slot binds its own vertex array, except a CHARACTER slot whose vertex array is -1 |
| SceneGraph.SlotSetsNoType | src/main.cpp:406-436 | no slot sets the type uniform |
| SceneGraph.SlotTextures | src/main.cpp:406-436 | a CHARACTER slot whose vertex array is not -1 binds exactly its non-negative diffuse, normal and specular ids, in that order; a GEOMETRY slot and a skipped CHARACTER slot bind none |
| SceneGraph.SlotWorlds | src/main.cpp:406-436 | a slot sets the node's world matrix once, except a CHARACTER slot whose vertex array is -1, which sets nothing |
| SceneGraph.SlotFramed | src/main.cpp:406-436 | within a slot, the draw comes right after the world-matrix uniform and the vertex-array bind, and the bind right before the draw |
| SceneGraph.OwnCollect | src/main.cpp:403-437 | a node's own calls carry the type uniform's items, then each slot's, and a ROOT node carries only the type uniform's |
| SceneGraph.OwnTypes | src/main.cpp:403 | the type uniform is the first of a node's own calls and the only one of them, for every type, ROOT included |
| SceneGraph.OwnTextures | src/main.cpp:410-423 | a node never binds a negative texture id |
| SceneGraph.SlotsBindNoNegative | src/main.cpp:410-423 | no slot of a GEOMETRY or CHARACTER node binds a negative texture id |
| SceneGraph.OwnSlots | src/main.cpp:406-436 | the draws and vertex-array binds of a non-ROOT node are those of its slots, joined |
| SceneGraph.GeometryDraws | src/main.cpp:430-436 | a GEOMETRY node draws exactly once per index count, draw i with vertex array i and count i |
| SceneGraph.Kept | src/main.cpp:406-429 | the per-slot items (index counts or vertex arrays) of the first k slots whose vertex array is not -1, in slot order |
| SceneGraph.CharacterDraws | src/main.cpp:406-429 | a CHARACTER node draws, in slot order, the count of each slot whose vertex array is not -1, and binds, in the same order, exactly those slots' vertex arrays |
| SceneGraph.CharacterBinds | src/main.cpp:406-429 | the vertex arrays bound by a CHARACTER node's slots, joined, are those of the slots whose vertex array is not -1, in slot order |
| SceneGraph.CharacterDrawsAll | src/main.cpp:406-429 | with no -1 vertex array, a CHARACTER node draws every slot's count, in order |
| SceneGraph.CharacterSkipsSentinel | src/main.cpp:408 | a CHARACTER node never binds the -1 vertex array |
| SceneGraph.SlotsSkipSentinel | src/main.cpp:408 | no CHARACTER slot contributes the -1 vertex array |
| SceneGraph.RootDrawsNothing | src/main.cpp:403-404 | a ROOT node issues only its type uniform and draws nothing |
| SceneGraph.SlotsUseWorld | src/main.cpp:406-436 | the slots of a GEOMETRY or CHARACTER node set the world matrix as often as they draw, and only to the node's own world matrix |
| SceneGraph.DrawsUseWorldMatrix | src/main.cpp:403-437 | for every node type, the node sets its world-matrix uniform once per draw and only to its own world matrix; every draw comes right after that uniform and a vertex-array bind, and every bind right before a draw |
| SceneGraph.RenderVisitsPreorder | src/main.cpp:401-443 | the type uniforms of the walk name the subtree's nodes in pre-order: a node before its children, children in list order |
| SceneGraph.ChildrenVisitPreorder | src/main.cpp:439-442 | the children's walks set the types of the children's subtrees in preorder |
| SceneGraph.PreorderNodes | src/main.cpp:401-443 | the pre-order of a subtree lists every node of the subtree and each of them once |
| SceneGraph.PreorderFromNodes | src/main.cpp:439-442 | the pre-orders of children 0..k-1 list the nodes of those subtrees, each once |
| SceneGraph.RenderIsWalkOfPreorder | src/main.cpp:401-443 | the whole walk is exactly the own calls of the subtree's nodes, taken in pre-order, each node's calls once and in one piece |
| SceneGraph.ChildrenIsWalkOfPreorderFrom | src/main.cpp:439-442 | the walks of children 0..k-1 are the own calls of those subtrees' nodes in pre-order |
| SceneGraph.RenderBindsNoNegativeTexture | src/main.cpp:401-443 | no texture bound anywhere in the walk has a negative id |
| SceneGraph.ChildrenBindNoNegativeTexture | src/main.cpp:439-442 | no texture bound by the children's walks has a negative id |
| SceneGraph.IndexCounts | src/main.cpp:172 | one index count per mesh, each equal to that mesh's index list length |
| SceneGraph.AttachCharacterMeshes | src/main.cpp:168-177 | the character node's vertex arrays, index counts and three texture vectors each gain one entry per loaded mesh, in mesh order, and nothing else about the node changes |
| SceneGraph.CharacterDrawsEveryMesh | src/main.cpp:168-177 | a CHARACTER node whose vertex arrays are the generated handles, whose counts are the meshes' index counts and whose texture vectors have one entry per mesh can be drawn, and it draws every mesh's index count, in mesh order |
| SceneGraph.BuildCharacterNode | src/main.cpp:163-177 | the build itself: a fresh CHARACTER node without children, scaled to 0.01, whose vertex arrays are the generated handles, whose counts are the meshes' index counts and whose texture vectors are the model's diffuse, normal and specular lists; it is a valid tree with an exact footprint, can be drawn, and draws every mesh's index count, in mesh order |
| BoneUniforms.DigitChar | src/main.cpp:376 | a digit value below ten is written as a decimal digit character |
| BoneUniforms.DigitValue | src/main.cpp:376 | a digit character has a value below ten |
| BoneUniforms.NatToString | src/main.cpp:376 | `std::to_string` of an index is a non-empty string of decimal digits with no leading zero |
| BoneUniforms.ParseNatToString | src/main.cpp:376 | reading the digits back gives the index: decimal spelling round-trips |
| BoneUniforms.NatToStringInjective | src/main.cpp:376 | two indices have the same spelling exactly when they are equal |
| BoneUniforms.BoneUniformName | src/main.cpp:376 | the name is `boneTransforms[`, the index's digits, then `]` |
| BoneUniforms.BoneUniformNamesDistinct | src/main.cpp:376 | two bone indices name the same uniform exactly when they are equal |
| BoneUniforms.SetUniformBoneTransforms | src/main.cpp:374-380 | exactly one write per matrix, in increasing index order; write i sets `boneTransforms[i]` to matrix i |
| BoneUniforms.UploadTargetsDistinct | src/main.cpp:374-380 | no two writes of one upload target the same uniform |
| FrameInput.ClipBindings | src/main.cpp:470-501 | the chain's keys in the order they are tested, each with its clip: W 1, S 4, A 3, D 2, SPACE 5 |
| FrameInput.FirstPressed | src/main.cpp:468-510 | the clip of the first pressed key in the list, or the idle clip 0 when no key is pressed |
| FrameInput.SelectedClip | src/main.cpp:468-510 | the clip one call plays: the first pressed key of the chain |
| FrameInput.FirstPressedPicks | src/main.cpp:470-501 | in a priority chain, a pressed key whose earlier keys are all released selects its clip |
| FrameInput.FirstPressedNone | src/main.cpp:468-510 | with no chain key pressed, the idle clip is selected |
| FrameInput.ClipPriority | src/main.cpp:468-510 | the clip is 1 for W, else 4 for S, else 3 for A, else 2 for D, else 5 for SPACE; it is the idle clip 0 exactly when none of these is pressed |
| FrameInput.CharacterMoves | src/main.cpp:470-497 | the character moves exactly when one of W, S, A, D is pressed: along +z, -z, +x, -x for the first one pressed, and never vertically |
| FrameInput.CharacterOffset | src/main.cpp:470-497 | the character's move: +0.75·speed along z for W, -0.5·speed along z for S, +0.75·speed along x for A, -0.75·speed along x for D, zero otherwise |
| FrameInput.ViewStep | src/main.cpp:475-496 | the camera's extra step: along the flattened view direction for W, against it for S, against the right vector for A, along it for D, zero otherwise |
| FrameInput.InputState.constructor | src/main.cpp:33-85 | the state when the render loop starts: the camera at the given position, not rotating, the cursor record at zero (the globals at lines 45-46), the cursor disabled (line 85), no close request and no clip played |
| FrameInput.InputState.ProcessInput | src/main.cpp:450-511 | exactly one clip is played per call (the priority chain's), and the character and camera move as the first pressed movement key says, with speed 2·deltaTime; the camera's offset from the character changes by the view step alone. Escape requests close, left-alt frees the cursor, and the left button disables the cursor, records the cursor position and sets rotating; without the button, rotating is cleared |
| FrameInput.InputState.HandleWindowAndMouse | src/main.cpp:452-464 | escape sets the close flag, left-alt sets the normal cursor, and the left button disables the cursor, sets rotating and records the cursor; without the button, rotating is cleared and the recorded cursor is kept |
| FrameInput.InputState.MoveAndPlay | src/main.cpp:466-510 | one clip is appended to the played list (the chain's choice), the character moves by the chain's offset, and the camera by that offset plus its view step, so the camera's offset from the character changes by the view step alone |

Proof helpers, which restate a definition one step at a time or are general facts about sequences and sets, and model nothing of their own: `Matrices.Neg`, `FrameInput.CameraFollowsCharacter` (the vector algebra behind the camera clause of `MoveAndPlay`), `Skinning.SkinAfterStep`, `ModelLoader.ImportFirst`, `ModelLoader.IndicesInSplit`, `ModelLoader.IndicesInTail`, `ModelLoader.PrefixOfPrefix`, `ModelLoader.AppendTail`, `ModelLoader.IdsBelowMonotone`, `SceneGraph.UnionReprContains`, `SceneGraph.UnionReprDisjoint`, `SceneGraph.AppendAssociative`, `SceneGraph.SlotChunksStep`, `SceneGraph.ChildStep`, `SceneGraph.CollectAppend`, `SceneGraph.CollectSingle`, `SceneGraph.CollectPair`, `SceneGraph.CollectTriple`, `SceneGraph.CollectConcat`, `SceneGraph.ConcatMember`, `SceneGraph.ConcatEmpty`, `SceneGraph.ConcatSingletons`, `SceneGraph.ConcatSameLength`, `SceneGraph.KeptJoined`, `SceneGraph.KeptPrefix`, `SceneGraph.KeptAll`, `SceneGraph.DrawsFramedAppend`, `SceneGraph.DrawsFramedConcat`, `SceneGraph.DistinctAppend`, `SceneGraph.KindsOfAppend`, `SceneGraph.KindsStep`, `SceneGraph.AllRenderableAppend`, `SceneGraph.WalkOfAppend`, `SceneGraph.WalkStep`, `SceneGraph.PrefixStep`.

## Left out

- The Assimp import is not modelled. `ReadFile` and the incomplete-scene check at src/model.hpp:61-68 are a foreign library; the scene is given to the constructor as plain data that satisfies `SceneWellFormed`.
- `directory` (src/model.hpp:70), `textureFromFile` (src/model.hpp:277-315) and texture path resolution are I/O. `LoadMaterialTextures` returns the material's first texture entry as the handle, standing for the id that `textureFromFile` would return for it.
- `loadCustomTexture` and the override loop are not modelled. The override loop is commented out in src/model.hpp:212-232, so the override flags are always false and every texture list gets its push.
- Vertex positions, normals, texture coordinates and tangents (src/model.hpp:160-195) are not modelled: no property of the loader depends on them. `Mesh` keeps only the bone buffers and indices.
- The console output (the `cout` lines of model.hpp at 66, 249, 261, 272 and 310, and those of main.cpp) is not modelled.
- Texture ids are `int` with the -1 sentinel. The source's handles are `unsigned int` set to -1. The field types of `Node` live in scene.hpp, which is not part of this model, so whether `textureIDs[i] >= 0` can fail there is not decided here.
- `Node`, `addChild` and `createSceneNode` are declared in scene.hpp, which is not part of this model. `Node` is modelled from its uses in main.cpp. The children list and the subtree footprint are fixed when a node is built, so the model does not capture adding a child to an existing node.
- Matrices and vectors use reals and symbolic factors. Floating-point rounding is not modelled, and glm's numeric translate, rotate and scale are kept as factors whose ordered product is the transform.
- `ProcessInput` takes the flattened view direction and the right vector that the source computes with `normalize` and `cross` as inputs. The camera trigonometry and pitch clamping in `mouse_callback` (src/main.cpp:513-565) are not modelled.
- The animator's sampling, blending and bone matrices (animation.hpp, animator.hpp) are not part of this model. `playAnimation` is recorded as the clip index appended to `played`, and the bone matrices uploaded by `SetUniformBoneTransforms` are a parameter.
- Window, GL context, shader, buffer, depth-map and cubemap setup (src/main.cpp:57-111,190-281) are not modelled, and neither is frame pacing (src/main.cpp:287-294). `deltaTime`, the key states and the cursor position are inputs. The vertex-array ids that `generateBuffer` returns are a parameter of `AttachCharacterMeshes`.
- The uniform location lookup by name (src/main.cpp:377) is not modelled. A uniform write is addressed by its name.
- The mouse button is modelled as pressed or not. The source's second poll for `GLFW_RELEASE` (src/main.cpp:462) is taken to be the complement of the press.
- The vector pushes of `processMesh` are modelled as array fills (`DefaultSlots`) and sequence appends. `ProcessMesh` runs the index loop before the vertex loop; neither touches what the other builds.
- ModelLoader.Model.constructor: its precondition `SceneWellFormed` asks for a valid material index and in-range vertex weights of every mesh in the scene, including meshes no node references, while the source only processes the meshes reached from the root. Restricting it to those meshes would thread the reachable set through every import lemma, so the model asks for more of an unreferenced mesh than the source needs.
- ModelLoader.Model.ExtractBoneWeightForVertices: requires that every bone whose index is below the table size names an existing entry. This is the source's `assert(boneID != -1)` (src/model.hpp:99) made a precondition. It also requires that every weight names a vertex below the buffer size, which is stricter than the check as written (see Findings).

## Findings

| source | as written | input that shows it | evidently intended | confidence | as-written member | corrected member |
|---|---|---|---|---|---|---|
| src/model.hpp:110 | `assert(vertexId <= boneIDs_all.size())` admits `vertexId == size` | a mesh with n vertices whose bone has a weight with `mVertexId == n`; the check passes and line 115 reads one past the end of the buffer | `vertexId < boneIDs_all.size()` | not executed | ModelLoader.VertexCheckAdmitsOutOfRange | ModelLoader.WriteBoneWeights |

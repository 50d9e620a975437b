# Mesh editor core, modelled in Dafny

This project models the core of a small mesh editor's back end.

- The **renderer** (`src/engine/render.cpp`) turns imported meshes into vertex and index data. It builds the billboard and ground-quad meshes and disposes of meshes and models.
- An **entity** (`backend/src/core/Entity.cpp`) holds one model.
- The **editor** (`backend/src/core/MeshEditor.cpp`) holds the list of entities, the camera, the billboard mesh and the circle texture. It forwards the front end's requests to every entity.

## Module layout

- `geometry.dfy`, module `Geometry`: the value types.
  - vectors, vertices;
  - `Mesh`, which holds the CPU-side `vertices`, `indices` and `selected` arrays, the data last uploaded to its vertex and index buffers, `indexcount` and `material`;
  - `Model`, `Camera`, the viewport `Rect`.
- `render.dfy`, module `Render`:
  - `load_mesh`, the index count of `create_mesh`, `create_billboard`, `create_ground_quad`;
  - `dispose_mesh`, `dispose_model`, `load_model`.
- `entity.dfy`, module `Entities`: class `Entity`, with fields `current` and `start`, and its operations.
  - `reset_selected_vertices`, `select`, `set_vertex_ID_selected` and `scale_entity` are each proved against a reference function on models: `ClearedModel`, `SelectedModel`, `IdSelectedModel` and `ScaledModel`.
  - `is_mouse_over`, the setters and `load` state their results directly in their contracts.
  - Lemmas state what those functions promise.
- `mesh_editor.dfy`, module `Editor`:
  - the nested loop that fills the 64 × 64 RGBA circle texture in place, in an `array`;
  - class `MeshEditor`, with its constructor, `set_camera`, `add_model`, `on_mouse_up` and `scale_all_entities`.

## How the model treats the source

- **Floats** are modelled as mathematical reals; rounding is not modelled.
- **Integer widths.** Two widths are written out:
  - Face indices are stored as 16-bit `GLushort`, so they are taken modulo 2^16 (`Render.ToU16`).
  - `set_vertex_ID_selected` has two unsigned 32-bit counters (`Entities.ToU32`). Both wrap modulo 2^32.
    - The running vertex number `j` is compared with the signed `ID` after the usual conversion of `ID` to unsigned.
    - The per-mesh flag index `i` wraps together with `j`. So every vertex of one mesh whose number matches `ID` writes the same flag, the match index `ToU32(ID − first)`, where `first` is the number of the mesh's first vertex.
    - On a mesh of more than 2^32 vertices, the source therefore sets at most one flag per mesh, and the model does the same (`Entities.IdSelectedMeshAtMatch`).
  - The other integer widths of the core are not modelled; "## Left out" lists them.
- **Matrix arithmetic is abstracted.** The entity's transform, the billboard transform, the view, the projection and the perspective division become one function parameter, `Projector`. It maps a camera, the entity's position/rotation/scale and a vertex position to the vertex's four billboard corners in device coordinates.
  - The mapping from device coordinates to screen pixels, including the y flip, is modelled (`Entities.ToScreen`).
  - `is_mouse_over` receives the model transform and the ray/triangle test as parameters.
- **One mesh record for two declarations.** The renderer (`src/engine/render.cpp`) takes its `Mesh` from `src/engine/render.h`. The entity code takes a `Mesh` with `vertices`, `indices`, `selected` and `vbo` from `backend/src/engine/render.h`. Neither header is part of this model. `Geometry.Mesh` joins the two declarations into one record.
  - The renderer never touches `vertices`, `indices` or `selected`. So in the joined record, a mesh built by `load_mesh` keeps these three arrays empty. This comes from the joining, not from anything `render.cpp` writes.
  - For the same reason, `ensures Aligned(model)` on `Render.LoadModel` holds only because every loaded mesh has no vertices and no flags.
- **Buffer uploads.** A GPU upload is recorded as the buffer's contents, and deleting a buffer empties it.
  - `load_mesh` only uploads the vertex and index lists it builds. In the model, its uploaded buffers hold the data.
  - `scale_entity` re-uploads each mesh's vertices after scaling them, so `ScaledMesh` sets the vertex buffer to the scaled vertices.
- **Where the documented design and the code disagree, the model follows the code:**
  - `set_position` only stores the position field; it does not move the vertices.
  - `select` rebuilds the flags from the rectangle test. It also flags vertex 11 of every mesh through its debug branch (`10 < i <= 11`), kept as written.
- **Values the code obtains from outside become parameters:**
  - the model that `load_model_string` builds from the text handed to `Entity::load` (`Load`, `AddModel`, the constructor's `staircase`);
  - the camera helper `move_cam_backwards` (`moveBack`);
  - the projection set up by the editor's constructor (`projection`).
- **Assumed camera field order.** The `Camera` fields are taken to be in the order x, y, z, pitch, yaw, roll. The camera's declaration is not part of this model; this is the order of the one initialiser list that fills it, `{x, y, z, pitch, yaw, roll}` in `set_camera`.
- **Assumed viewport field order.** `Rect` is taken to be `{x, y, width, height}`. Its declaration is not part of this model either. `Editor.MouseViewport` reads the `{0, 0, 1000, 640}` that `on_mouse_up` passes in this order.

## Model

| member | source | states |
|---|---|---|
| Render.ToU16 | src/engine/render.cpp:66-68 | An index stored as GLushort is below 2^16 and is unchanged when it already fits |
| Render.CreateMesh | src/engine/render.cpp:18-39 | The built mesh uploads exactly the given vertices and indices, its index count equals the number of uploaded indices, and its material is 0 |
| Render.LoadMesh | src/engine/render.cpp:41-87 | The two loops produce exactly the reference loaded mesh: material index recorded, one vertex per imported vertex, three 16-bit indices per face, index count = number of indices |
| Render.LoadedMeshContents | src/engine/render.cpp:41-87 | Vertex i keeps position and normal, and takes its uv from the first texture-coordinate channel, or (0,0) without one; triangle k of the index buffer is face k truncated to 16 bits; index count = 3 per face and agrees with the buffer; CPU arrays and flags untouched |
| Render.LoadedIndicesExact | src/engine/render.cpp:63-69 | When face indices name imported vertices and fit in 16 bits, the index buffer is exactly the concatenated faces and every index names an uploaded vertex |
| Render.LoadModel | src/engine/render.cpp:129-153 | Transform reset to zero position, zero rotation, unit scale; on success one loaded mesh per imported mesh (each the reference loaded mesh) and one material per declared material; on failure no meshes and no materials; on success it agrees with the as-written result; flags aligned with vertices |
| Render.LoadModelAsWritten | src/engine/render.cpp:129-153 | As written: the meshes are loaded only under the `if(pScene)` guard, but the material loader then reads the scene's material count on every path, so the result is defined exactly when the import succeeded, and then it is the loaded model |
| Render.FailedImportReadsNullScene | src/engine/render.cpp:89-90 | A failed import reaches the read of the material count through a null scene, so the as-written result is undefined |
| Render.DisposeMesh | src/engine/render.cpp:5-9 | Both buffers deleted, index count and material zeroed, CPU arrays kept |
| Render.DisposeModel | src/engine/render.cpp:11-16 | Every mesh is disposed in turn (the ghost `released` list holds each disposed mesh), then the mesh and material lists are empty; the transform is kept |
| Render.CreateBillboard | src/engine/render.cpp:210-221 | Four corners (±0.5, ±0.5, 0) in strip order with normal (0,1,0) and uvs (0,0), (0,1), (1,1), (1,0); no indices, index count 0 |
| Render.CreateGroundQuad | src/engine/render.cpp:223-241 | Four corners (±width, 0, ±height) facing up with uvs (0,0), (0,1), (1,1), (1,0); indices 0,1,2,2,3,0, index count 6, every index names a vertex and every vertex is used |
| Entities.Entity.constructor | backend/src/core/Entity.cpp:3-8 | Empty model with zero position, rotation and scale; `start` equals `current` |
| Entities.Entity.Load | backend/src/core/Entity.cpp:15-18 | `current` becomes the loaded model; `start` is not touched |
| Entities.Entity.SetPosition | backend/src/core/Entity.cpp:293-295 | Only the position field changes |
| Entities.Entity.SetRotation | backend/src/core/Entity.cpp:297-299 | Only the rotation field changes |
| Entities.Entity.SetScale | backend/src/core/Entity.cpp:301-303 | Only the scale field changes |
| Entities.Entity.ResetSelectedVertices | backend/src/core/Entity.cpp:155-162 | The new model is the old one with every flag cleared |
| Entities.ClearedModelFacts | backend/src/core/Entity.cpp:155-162 | After a reset every flag is false, the flag counts are kept and nothing but flags changes |
| Entities.ToScreenMapsDeviceSquare | backend/src/core/Entity.cpp:195-216 | `ToScreen`, the model of this mapping, takes `(x+1)·w/2` and flips y as `h − (y+1)·h/2`. The device square lands inside the viewport, (-1,1) at the top-left corner and (1,-1) at the bottom-right, and a higher device y gives a smaller screen y |
| Entities.TestVertex | backend/src/core/Entity.cpp:218-242 | The debug branch and the four corner tests flag a vertex exactly when its index is 11 or one of its screen corners passes the rectangle test |
| Entities.SelectMeshVertices | backend/src/core/Entity.cpp:170-254 | On a cleared mesh the vertex loop yields exactly the reference selected mesh |
| Entities.Entity.Select | backend/src/core/Entity.cpp:164-254 | The new model is the reference selection of the old one with the entity's own transform: flags reset, then recomputed per vertex |
| Entities.SelectedModelFlags | backend/src/core/Entity.cpp:164-254 | Vertex i of mesh k is flagged if and only if i = 11 or one of its four screen corners is inside the rectangle; only flags change and they stay aligned |
| Entities.SelectForcesIndexEleven | backend/src/core/Entity.cpp:218-224 | Whatever the rectangle, vertex 11 of every mesh that has one is flagged |
| Entities.EmptyRectangleSelectsOnlyDebugVertex | backend/src/core/Entity.cpp:227-242 | A rectangle with no interior flags no vertex other than vertex 11 |
| Entities.RectangleBoundary | backend/src/core/Entity.cpp:227-242 | The test is open at xIn and yIn and closed at x2 and y2 |
| Entities.SelectIgnoresPriorFlags | backend/src/core/Entity.cpp:164-170 | Because `select` resets first, models that differ only in flags select to the same result |
| Entities.SelectIdempotent | backend/src/core/Entity.cpp:164-254 | Selecting twice with the same inputs equals selecting once |
| Entities.ToU32 | backend/src/core/Entity.cpp:97-101 | The u32 value of an integer is below 2^32 and equals the integer when it is in range |
| Entities.CounterStep | backend/src/core/Entity.cpp:105 | Incrementing the wrapped counter keeps it equal to the wrapped count of vertices visited |
| Entities.MarkMeshVertices | backend/src/core/Entity.cpp:99-106 | The loop over one mesh, with its own wrapping u32 index, leaves exactly the reference id-selected mesh (each matching vertex's flag written through its wrapped index), and returns the counter advanced by the mesh size modulo 2^32 |
| Entities.ToU32Shift | backend/src/core/Entity.cpp:97-105 | Conversion to u32 commutes with addition, as the wrapping increments require |
| Entities.MatchIndex | backend/src/core/Entity.cpp:99-102 | The match index of a mesh is a u32 value, and it is the unwrapped offset `ID − first` when that offset is in range |
| Entities.MatchIffIndex | backend/src/core/Entity.cpp:101 | A vertex's running number matches ID exactly when its wrapped local index is the mesh's match index |
| Entities.WrittenThroughMatchIndex | backend/src/core/Entity.cpp:99-104 | Among the first `count` vertices, a flag index is written for some matching vertex exactly when it is the match index and lies below `count` |
| Entities.IdSelectedMeshAtMatch | backend/src/core/Entity.cpp:99-106 | Per mesh, at most one flag is set: the flag at the match index, when the mesh has more vertices than that index |
| Entities.WrappedIndexRewritesSameFlag | backend/src/core/Entity.cpp:99-105 | On a mesh of more than 2^32+3 vertices numbered from 0, ID 3 sets flag 3 and leaves the flag of vertex 2^32+3 as it was, because both matches are written through flag 3 |
| Entities.MarkNumberedVertices | backend/src/core/Entity.cpp:97-107 | The loop over all meshes, its u32 vertex number and its per-mesh u32 flag index both wrapping, yields exactly the reference id-selected meshes |
| Entities.MarkedFromAt | backend/src/core/Entity.cpp:97-107 | In the mesh-by-mesh traversal, mesh k is numbered from the number of vertices in the meshes before it |
| Entities.MarkedFromIsIdSelected | backend/src/core/Entity.cpp:97-107 | The traversal started at 0 equals the reference definition |
| Entities.Entity.SetVertexIdSelected | backend/src/core/Entity.cpp:96-108 | The new model is the reference id-selected model of the old one, in which every matching vertex has its flag written through the wrapped u32 index `i` |
| Entities.VerticesBeforeGrows | backend/src/core/Entity.cpp:98-106 | Later meshes start after all vertices of earlier meshes |
| Entities.GlobalNumberInjective | backend/src/core/Entity.cpp:98-106 | The running number is one-to-one over (mesh, vertex) pairs |
| Entities.GlobalNumberOnto | backend/src/core/Entity.cpp:98-106 | Every number below the vertex total belongs to some vertex |
| Entities.GlobalNumberBelowTotal | backend/src/core/Entity.cpp:98-106 | Every vertex's number is below the vertex total |
| Entities.IdSelectSetsExactlyThatVertex | backend/src/core/Entity.cpp:96-108 | For 0 ≤ ID < total ≤ 2^32 a vertex numbered ID exists, its flag is set, and every other flag is kept |
| Entities.IdSelectedMeshFlags | backend/src/core/Entity.cpp:99-106 | Within one mesh whose numbers fit in u32, exactly the vertex numbered ID gets its flag set (a flag beyond the vertex list is never set) |
| Entities.IdSelectUnmatchedChangesNothing | backend/src/core/Entity.cpp:101 | When the u32 value of ID is at least the vertex total, nothing changes |
| Entities.IdSelectedMeshUnmatched | backend/src/core/Entity.cpp:101 | A mesh whose numbers all lie below the u32 value of ID is unchanged |
| Entities.IdSelectNegativeChangesNothing | backend/src/core/Entity.cpp:101 | A negative ID changes nothing on a model of at most 2^31 vertices |
| Entities.IdSelectNeverClears | backend/src/core/Entity.cpp:101-103 | No flag is ever cleared, nothing but flags changes, alignment is kept |
| Entities.Entity.ScaleEntity | backend/src/core/Entity.cpp:111-123 | The new model is the reference scaled model of the old one, with each vertex buffer re-uploaded |
| Entities.ScaledModelFacts | backend/src/core/Entity.cpp:111-123 | Positions are multiplied componentwise by the factor; normals, uvs, indices, flags, counts and transform are kept |
| Entities.ScaledVecComposes | backend/src/core/Entity.cpp:115-117 | Scaling a position by f and then g is scaling by f·g |
| Entities.ScaleComposes | backend/src/core/Entity.cpp:111-123 | Scaling an entity by f and then g is scaling by f·g |
| Entities.Entity.IsMouseOver | backend/src/core/Entity.cpp:125-153 | True if and only if some triangle of some mesh, its corners transformed, is hit by the ray; false for a model with no indices; the model is not changed |
| Editor.CircleImage | backend/src/core/MeshEditor.cpp:30-52 | The buffer holds 64·64·4 = 16384 bytes |
| Editor.PixelIndexDecodes | backend/src/core/MeshEditor.cpp:32-35 | The offset (x+64y)·4+c of every pixel channel lies inside the buffer and decodes back to x, y and c |
| Editor.ByteIsPixelIndex | backend/src/core/MeshEditor.cpp:30-35 | Every byte of the buffer is the offset of some pixel channel |
| Editor.PixelIndexInjective | backend/src/core/MeshEditor.cpp:32-35 | Distinct pixel channels have distinct offsets, so each byte is written exactly once |
| Editor.CircleImagePixels | backend/src/core/MeshEditor.cpp:37-50 | All four channels of pixel (x,y) are 255 when (32−x)²+(32−y)² < 1024 and 0 otherwise |
| Editor.SamePixel | backend/src/core/MeshEditor.cpp:35-44 | A byte belongs to pixel (x,y) if and only if it lies among the four bytes from (x+64y)·4 |
| Editor.FillPixel | backend/src/core/MeshEditor.cpp:34-50 | The loop body writes pixel (x,y)'s four bytes with the circle value, breaks no earlier byte, and changes no byte outside that pixel |
| Editor.FillCirclePixels | backend/src/core/MeshEditor.cpp:30-52 | After the nested column/row loop the array holds exactly the circle image |
| Editor.MeshEditor.constructor | backend/src/core/MeshEditor.cpp:5-55 | Exactly one fresh entity, holding the staircase model at position (4,4,4); camera zero then moved back by 10; billboard mesh built; circle texture holds the circle image |
| Editor.MeshEditor.SetCamera | backend/src/core/MeshEditor.cpp:106-108 | The camera becomes (x, y, z, pitch, yaw, roll); zoom is ignored |
| Editor.MeshEditor.AddModel | backend/src/core/MeshEditor.cpp:110-114 | Exactly one fresh entity holding the loaded model is appended; the existing entities are the same objects in the same order |
| Editor.MeshEditor.OnMouseUp | backend/src/core/MeshEditor.cpp:128-132 | Every entity is selected with the same rectangle, the editor's camera and projection and the viewport {0,0,1000,640}; no `start` model changes |
| Editor.MeshEditor.ScaleAllEntities | backend/src/core/MeshEditor.cpp:135-139 | Every entity is scaled by the factor; the entity list is unchanged and each entity's flags stay aligned |

## Left out

- GPU calls are not modelled: buffer generation and binding, attribute pointers, drawing, texture upload and shaders. Only the data handed to `glBufferData`, and the pixels handed to `load_texture` for the circle texture, are recorded.
- The matrix arithmetic is not modelled, because it is floating-point linear algebra on code this model does not contain. This covers the model transform, the billboard transform, the view and projection matrices and the perspective division. The source divides by w without a guard against w = 0. A corner with w = 0 then gets a NaN or infinite screen coordinate. Such a corner fails its rectangle test in `select`, because the rectangle bounds are finite integers, so the comparison with `xIn` or with `x2` (or the same pair for y) is false. `Projector` returns only real corners, so the model cannot represent that case.
- `ray_tri_collision` is a parameter. Its geometry is not part of this model.
- `load_materials` is not modelled: texture paths, colours and texture loading. Only the number of materials is kept. The scene importer (Assimp) is replaced by the `Scene` value it returns.
- `export_model` is left out, because its behaviour is undefined: it dereferences an uninitialised scene pointer, and its signature differs from the header's.
- `run`, `draw`, `draw_vertices` and the other drawing code are left out; they only issue GPU calls. The rotation `run` applies each frame is covered by `SetRotation`.
- The code that never runs is left out: the `#if 0` blocks and the commented-out selection by ray.
- `printf` output is left out.
- The `previous` undo array (capacity 50) is never used.
- The `Entity(std::string)` constructor has an empty body. The `meshes` and `materials` vectors of `current` and `start` are then default-constructed and empty; only their `vec3` transform fields can be indeterminate. With those fields undefined, there is no defined state to model.
- `get_current` only returns a copy of `current`.
- Floating-point rounding is left out.
  - Coordinates are reals.
  - The circle test compares `length(diff) < 32`; the model uses the exactly equivalent integer test `(32−x)²+(32−y)² < 1024`.
- Indices are `nat` before their 16-bit truncation. The 32-bit width of the importer's own counters is not modelled.
- `&v[0]` on an empty vector has undefined behaviour when an empty list is uploaded. The model treats the upload as an empty buffer.
- The precondition `WellFormedSource` covers what `load_mesh` relies on. The importer's arrays supply the normals and texture coordinates, and the importer is not part of this model.
  - `load_mesh` asserts that every face has three indices.
  - It reads a normal for every position.
  - When the first texture-coordinate channel exists, it reads a texture coordinate for every position.
- Entities.Entity.IsMouseOver: requires every mesh to list whole triangles whose indices name its vertices. The source reads out of bounds otherwise.
- Entities.Entity.Select: requires one flag per vertex (`Aligned`). The source writes `selected[i]` for every vertex index.
- Entities.MarkMeshVertices: requires the same alignment, for the same reason.
- The signed `int` loop counters of `reset_selected_vertices`, `select` and `is_mouse_over` are modelled as unbounded. Past 2^31 − 1 they overflow, which is undefined behaviour in C++ and has no counterpart in the model.
- The C++ vector holds entities by value, and `emplace_back` may move them. The model keeps distinct `Entity` objects in a sequence, so relocation is not captured.
- The circle array's initial contents are unspecified in both the source and the model. `FillCirclePixels` proves that every byte is overwritten.

## Findings

| source | as written | input that shows it | evidently intended | confidence | as-written member | corrected member |
|---|---|---|---|---|---|---|
| src/engine/render.cpp:147-151 | After a failed import (`pScene` null), `load_model` prints an error and still calls `load_materials`, which reads `pScene->mNumMaterials` through the null pointer | any file the importer cannot read | return the model with zero position and rotation, unit scale and no meshes or materials | not executed; high | Render.LoadModelAsWritten, Render.FailedImportReadsNullScene | Render.LoadModel |

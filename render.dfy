/** The mesh-building part of the renderer: turning imported meshes into
    vertex and index data, the two built-in meshes (billboard and ground
    quad), and disposing of meshes and models. The GPU calls themselves are
    not modelled; the data a call uploads is recorded in the mesh's
    `vertexBuffer` and `indexBuffer`, and deleting a buffer empties it. */
module Render {
  import opened Geometry

  /** Indices are stored as 16-bit unsigned integers (GLushort). */
  const U16: nat := 0x1_0000

  function ToU16(n: nat): (r: nat)
    ensures r < U16
    ensures n < U16 ==> r == n
  {
    n % U16
  }

  /** An imported mesh as the scene importer hands it over. */
  datatype SourceMesh = SourceMesh(
    positions: seq<Vec3>,          // one entry per imported vertex
    normals: seq<Vec3>,            // read at the same index as the position
    texCoords: Option<seq<Vec3>>,  // the first texture-coordinate channel, when present
    faces: seq<seq<nat>>,          // the vertex indices of each face
    materialIndex: nat)

  /** An imported scene: its meshes and how many materials it declares. */
  datatype Scene = Scene(meshes: seq<SourceMesh>, numMaterials: nat)

  /** What reading an imported mesh needs: a normal (and texture coordinate,
      when there are any) beside every position, and only triangular faces. */
  predicate WellFormedSource(src: SourceMesh) {
    && |src.normals| >= |src.positions|
    && (src.texCoords.Some? ==> |src.texCoords.value| >= |src.positions|)
    && forall k :: 0 <= k < |src.faces| ==> |src.faces[k]| == 3
  }

  predicate WellFormedScene(scene: Scene) {
    forall i :: 0 <= i < |scene.meshes| ==> WellFormedSource(scene.meshes[i])
  }

  /** The vertex built from imported vertex `i`: position and normal copied,
      the texture coordinate taken from the first channel or (0, 0). */
  function ImportedVertex(src: SourceMesh, i: nat): Vertex
    requires WellFormedSource(src) && i < |src.positions|
  {
    var uv := if src.texCoords.Some? then Vec2(src.texCoords.value[i].x, src.texCoords.value[i].y) else Vec2(0.0, 0.0);
    Vertex(src.positions[i], src.normals[i], uv)
  }

  /** The three indices of triangle `k` in a flat index list. */
  function Triangle(indices: seq<nat>, k: nat): seq<nat>
    requires 3 * k + 3 <= |indices|
  {
    indices[3 * k .. 3 * k + 3]
  }

  /** Reference definition of loading one imported mesh into a mesh record:
      the material index is recorded, one vertex per imported vertex and the
      flattened face indices are uploaded, and `indexcount` counts them. The
      CPU-side arrays of the record are left as they were. */
  function LoadedMesh(mesh: Mesh, src: SourceMesh): Mesh
    requires WellFormedSource(src)
  {
    mesh.(material := src.materialIndex,
          vertexBuffer := seq(|src.positions|, i requires 0 <= i < |src.positions| => ImportedVertex(src, i)),
          indexBuffer := seq(3 * |src.faces|, n requires 0 <= n < 3 * |src.faces| => ToU16(src.faces[n / 3][n % 3])),
          indexcount := 3 * |src.faces|)
  }

  /** Builds a mesh record from vertex and index lists, as `create_mesh` does. */
  function CreateMesh(vertices: seq<Vertex>, indices: seq<nat>): (mesh: Mesh)
    ensures BuffersAgree(mesh)
    ensures mesh.vertexBuffer == vertices && mesh.indexBuffer == indices
    ensures mesh.indexcount == |indices| && mesh.material == 0
  {
    EmptyMesh.(vertexBuffer := vertices, indexBuffer := indices, indexcount := |indices|)
  }

  /** Loads imported mesh `src` into the mesh record `mesh`, building the
      vertex list and the flat index list with one loop each. */
  method LoadMesh(mesh: Mesh, src: SourceMesh) returns (loaded: Mesh)
    requires WellFormedSource(src)
    ensures loaded == LoadedMesh(mesh, src)
  {
    var vertices: seq<Vertex> := [];
    var i := 0;
    while i < |src.positions|
      invariant 0 <= i <= |src.positions|
      invariant |vertices| == i
      invariant forall n :: 0 <= n < i ==> vertices[n] == ImportedVertex(src, n)
    {
      var uv := if src.texCoords.Some? then Vec2(src.texCoords.value[i].x, src.texCoords.value[i].y) else Vec2(0.0, 0.0);
      vertices := vertices + [Vertex(src.positions[i], src.normals[i], uv)];
      i := i + 1;
    }

    var indices: seq<nat> := [];
    var k := 0;
    while k < |src.faces|
      invariant 0 <= k <= |src.faces|
      invariant |indices| == 3 * k
      invariant forall n :: 0 <= n < 3 * k ==> indices[n] == ToU16(src.faces[n / 3][n % 3])
    {
      var face := src.faces[k];
      indices := indices + [ToU16(face[0]), ToU16(face[1]), ToU16(face[2])];
      k := k + 1;
    }

    loaded := mesh.(material := src.materialIndex, vertexBuffer := vertices, indexBuffer := indices, indexcount := |indices|);
  }

  /** A loaded mesh holds exactly one vertex per imported vertex, with its
      position and normal, and its uv taken from the first texture-coordinate
      channel, or (0, 0) when the import has none; triangle k of its index buffer is face k, each index
      truncated to 16 bits; and `indexcount` is three per face. */
  lemma LoadedMeshContents(mesh: Mesh, src: SourceMesh)
    requires WellFormedSource(src)
    ensures BuffersAgree(LoadedMesh(mesh, src))
    ensures LoadedMesh(mesh, src).indexcount == 3 * |src.faces|
    ensures |LoadedMesh(mesh, src).vertexBuffer| == |src.positions|
    ensures forall i :: 0 <= i < |src.positions| ==>
              && LoadedMesh(mesh, src).vertexBuffer[i].position == src.positions[i]
              && LoadedMesh(mesh, src).vertexBuffer[i].normal == src.normals[i]
              && (src.texCoords.None? ==> LoadedMesh(mesh, src).vertexBuffer[i].uv == Vec2(0.0, 0.0))
              && (src.texCoords.Some? ==>
                    LoadedMesh(mesh, src).vertexBuffer[i].uv == Vec2(src.texCoords.value[i].x, src.texCoords.value[i].y))
    ensures forall k :: 0 <= k < |src.faces| ==>
              Triangle(LoadedMesh(mesh, src).indexBuffer, k) == [ToU16(src.faces[k][0]), ToU16(src.faces[k][1]), ToU16(src.faces[k][2])]
    ensures LoadedMesh(mesh, src).vertices == mesh.vertices && LoadedMesh(mesh, src).indices == mesh.indices
    ensures LoadedMesh(mesh, src).selected == mesh.selected && LoadedMesh(mesh, src).material == src.materialIndex
  {
    var buf := LoadedMesh(mesh, src).indexBuffer;
    forall k | 0 <= k < |src.faces|
      ensures Triangle(buf, k) == [ToU16(src.faces[k][0]), ToU16(src.faces[k][1]), ToU16(src.faces[k][2])]
    {
      assert (3 * k) / 3 == k && (3 * k) % 3 == 0;
      assert (3 * k + 1) / 3 == k && (3 * k + 1) % 3 == 1;
      assert (3 * k + 2) / 3 == k && (3 * k + 2) % 3 == 2;
    }
  }

  /** When every face index names an imported vertex and fits in 16 bits,
      the uploaded index buffer is exactly the concatenated faces and refers
      only to uploaded vertices. */
  lemma LoadedIndicesExact(mesh: Mesh, src: SourceMesh)
    requires WellFormedSource(src)
    requires |src.positions| <= U16
    requires forall k, j :: 0 <= k < |src.faces| && 0 <= j < 3 ==> src.faces[k][j] < |src.positions|
    ensures forall n :: 0 <= n < |LoadedMesh(mesh, src).indexBuffer| ==>
              && LoadedMesh(mesh, src).indexBuffer[n] == src.faces[n / 3][n % 3]
              && LoadedMesh(mesh, src).indexBuffer[n] < |LoadedMesh(mesh, src).vertexBuffer|
  {
    var loaded := LoadedMesh(mesh, src);
    forall n | 0 <= n < |loaded.indexBuffer|
      ensures loaded.indexBuffer[n] == src.faces[n / 3][n % 3] && loaded.indexBuffer[n] < |loaded.vertexBuffer|
    {
      assert src.faces[n / 3][n % 3] < |src.positions|;
    }
  }

  /** Loads an imported scene (`None` when the importer failed). The model's
      transform is reset to zero position, zero rotation and unit scale; on
      success there is one loaded mesh per imported mesh and one material per
      declared material, on failure there are none. */
  method LoadModel(scene: Option<Scene>) returns (model: Model)
    requires scene.Some? ==> WellFormedScene(scene.value)
    ensures model.pos == Zero3 && model.rotate == Zero3 && model.scale == Vec3(1.0, 1.0, 1.0)
    ensures scene.None? ==> model.meshes == [] && model.materials == []
    ensures scene.Some? ==>
              && |model.meshes| == |scene.value.meshes|
              && |model.materials| == scene.value.numMaterials
              && forall i :: 0 <= i < |model.meshes| ==> model.meshes[i] == LoadedMesh(EmptyMesh, scene.value.meshes[i])
    ensures scene.Some? ==> LoadModelAsWritten(scene) == Some(model)
    ensures Aligned(model)
  {
    model := Model([], [], Zero3, Zero3, Vec3(1.0, 1.0, 1.0));
    if scene.Some? {
      var s := scene.value;
      model := model.(meshes := seq(|s.meshes|, _ => EmptyMesh), materials := seq(s.numMaterials, _ => Material));
      var i := 0;
      while i < |model.meshes|
        invariant 0 <= i <= |model.meshes| == |s.meshes|
        invariant model.materials == seq(s.numMaterials, _ => Material)
        invariant model.pos == Zero3 && model.rotate == Zero3 && model.scale == Vec3(1.0, 1.0, 1.0)
        invariant forall n :: 0 <= n < i ==> model.meshes[n] == LoadedMesh(EmptyMesh, s.meshes[n])
        invariant forall n :: i <= n < |model.meshes| ==> model.meshes[n] == EmptyMesh
      {
        var m := LoadMesh(model.meshes[i], s.meshes[i]);
        model := model.(meshes := model.meshes[i := m]);
        i := i + 1;
      }
      assert model.meshes == LoadModelAsWritten(scene).value.meshes;
    }
  }

  /** `load_model` as written: the transform is reset, the meshes and the
      material slots are filled only when the import succeeded, and then the
      material loader is called on every path. Its first step reads the
      scene's material count; through the null scene of a failed import that
      read has no defined result, written `None` here. */
  function LoadModelAsWritten(scene: Option<Scene>): (r: Option<Model>)
    requires scene.Some? ==> WellFormedScene(scene.value)
    ensures r.Some? <==> scene.Some?
    ensures r.Some? ==>
              && r.value.pos == Zero3 && r.value.rotate == Zero3 && r.value.scale == Vec3(1.0, 1.0, 1.0)
              && |r.value.meshes| == |scene.value.meshes|
              && |r.value.materials| == scene.value.numMaterials
              && forall i :: 0 <= i < |r.value.meshes| ==> r.value.meshes[i] == LoadedMesh(EmptyMesh, scene.value.meshes[i])
  {
    var base := Model([], [], Zero3, Zero3, Vec3(1.0, 1.0, 1.0));
    var model := if scene.Some? then
                   base.(meshes := seq(|scene.value.meshes|, i requires 0 <= i < |scene.value.meshes| =>
                                          LoadedMesh(EmptyMesh, scene.value.meshes[i])),
                          materials := seq(scene.value.numMaterials, _ => Material))
                 else base;
    if scene.None? then None else Some(model)
  }

  /** A failed import reaches the read through the null scene, where the
      corrected `LoadModel` returns the empty model with the default transform. */
  lemma FailedImportReadsNullScene()
    ensures LoadModelAsWritten(None) == None
  {
  }

  /** Disposing a mesh deletes its two GPU buffers and zeroes its index count
      and material; nothing is drawn from it afterwards. */
  function DisposeMesh(mesh: Mesh): (r: Mesh)
    ensures BuffersAgree(r) && r.indexcount == 0 && r.material == 0
    ensures r.vertexBuffer == [] && r.indexBuffer == []
    ensures r.vertices == mesh.vertices && r.indices == mesh.indices && r.selected == mesh.selected
  {
    mesh.(vertexBuffer := [], indexBuffer := [], indexcount := 0, material := 0)
  }

  /** Disposes every mesh of the model, then empties its mesh and material
      lists; the transform fields are kept. `released` records the meshes as
      they were disposed, before the list is cleared. */
  method DisposeModel(model: Model) returns (disposed: Model, ghost released: seq<Mesh>)
    ensures |released| == |model.meshes|
    ensures forall k :: 0 <= k < |released| ==> released[k] == DisposeMesh(model.meshes[k])
    ensures disposed.meshes == [] && disposed.materials == []
    ensures disposed.pos == model.pos && disposed.rotate == model.rotate && disposed.scale == model.scale
  {
    disposed := model;
    var i := 0;
    while i < |disposed.meshes|
      invariant 0 <= i <= |disposed.meshes| == |model.meshes|
      invariant disposed.pos == model.pos && disposed.rotate == model.rotate && disposed.scale == model.scale
      invariant forall n :: 0 <= n < i ==> disposed.meshes[n] == DisposeMesh(model.meshes[n])
      invariant forall n :: i <= n < |model.meshes| ==> disposed.meshes[n] == model.meshes[n]
    {
      disposed := disposed.(meshes := disposed.meshes[i := DisposeMesh(disposed.meshes[i])]);
      i := i + 1;
    }
    released := disposed.meshes;
    disposed := disposed.(meshes := [], materials := []);
  }

  /** The texture coordinates both built-in quads give their four corners, in order. */
  const CornerUVs: seq<Vec2> := [Vec2(0.0, 0.0), Vec2(0.0, 1.0), Vec2(1.0, 1.0), Vec2(1.0, 0.0)]

  /** The billboard sprite drawn at each vertex: four corners in the z = 0
      plane, as a triangle strip, so it has no indices. */
  function CreateBillboard(): (billboard: Mesh)
    ensures |billboard.vertexBuffer| == 4 && billboard.indexBuffer == []
    ensures BuffersAgree(billboard) && billboard.indexcount == 0
    ensures forall k :: 0 <= k < 4 ==>
              && billboard.vertexBuffer[k].position == Vec3(BillboardCorners[k].x, BillboardCorners[k].y, 0.0)
              && billboard.vertexBuffer[k].normal == Up
              && billboard.vertexBuffer[k].uv == CornerUVs[k]
  {
    CreateMesh([Vertex(Vec3(-0.5, -0.5, 0.0), Up, Vec2(0.0, 0.0)),
                Vertex(Vec3(0.5, -0.5, 0.0), Up, Vec2(0.0, 1.0)),
                Vertex(Vec3(-0.5, 0.5, 0.0), Up, Vec2(1.0, 1.0)),
                Vertex(Vec3(0.5, 0.5, 0.0), Up, Vec2(1.0, 0.0))],
               [])
  }

  /** The ground quad: four corners of the rectangle [-width, width] x
      [-height, height] in the plane y = 0, facing up, drawn as the two
      triangles (0, 1, 2) and (2, 3, 0). */
  function CreateGroundQuad(width: real, height: real): (quad: Mesh)
    ensures |quad.vertexBuffer| == 4
    ensures quad.vertexBuffer[0].position == Vec3(-width, 0.0, -height)
    ensures quad.vertexBuffer[1].position == Vec3(-width, 0.0, height)
    ensures quad.vertexBuffer[2].position == Vec3(width, 0.0, height)
    ensures quad.vertexBuffer[3].position == Vec3(width, 0.0, -height)
    ensures forall k :: 0 <= k < 4 ==> quad.vertexBuffer[k].normal == Up && quad.vertexBuffer[k].uv == CornerUVs[k]
    ensures quad.indexBuffer == [0, 1, 2, 2, 3, 0]
    ensures BuffersAgree(quad) && quad.indexcount == 6
    ensures forall n :: 0 <= n < |quad.indexBuffer| ==> quad.indexBuffer[n] < |quad.vertexBuffer|
    ensures forall v :: 0 <= v < |quad.vertexBuffer| ==> v in quad.indexBuffer
  {
    CreateMesh([Vertex(Vec3(-width, 0.0, -height), Up, Vec2(0.0, 0.0)),
                Vertex(Vec3(-width, 0.0, height), Up, Vec2(0.0, 1.0)),
                Vertex(Vec3(width, 0.0, height), Up, Vec2(1.0, 1.0)),
                Vertex(Vec3(width, 0.0, -height), Up, Vec2(1.0, 0.0))],
               [0, 1, 2, 2, 3, 0])
  }
}

/** Value types shared by the renderer, the entities and the editor: vectors,
    vertices, meshes, models, the camera and the viewport rectangle.
    Floating-point coordinates are modelled as mathematical reals. */
module Geometry {

  datatype Option<T> = None | Some(value: T)

  datatype Vec2 = Vec2(x: real, y: real)
  datatype Vec3 = Vec3(x: real, y: real, z: real)

  const Zero3 := Vec3(0.0, 0.0, 0.0)
  const Up := Vec3(0.0, 1.0, 0.0)

  datatype Vertex = Vertex(position: Vec3, normal: Vec3, uv: Vec2)

  /** A material record. Its colours and textures are filled by the material
      loader, which is not part of this model, so only the number of materials
      a model holds is observable here. */
  datatype Material = Material

  /** A mesh. `vertices`, `indices` and `selected` are the CPU-side arrays the
      entity edits (`selected` is parallel to `vertices`); `vertexBuffer` and
      `indexBuffer` stand for the data last uploaded to the mesh's GPU vertex
      and index buffers; `indexcount` is the number of indices drawn and
      `material` the index of the mesh's material. */
  datatype Mesh = Mesh(
    vertices: seq<Vertex>,
    indices: seq<nat>,
    selected: seq<bool>,
    vertexBuffer: seq<Vertex>,
    indexBuffer: seq<nat>,
    indexcount: nat,
    material: nat)

  /** A zero-initialised mesh record (`Mesh mesh = {0}`, or a value-initialised vector element). */
  const EmptyMesh := Mesh([], [], [], [], [], 0, 0)

  /** A model: its meshes, its materials and its spatial transform fields. */
  datatype Model = Model(
    meshes: seq<Mesh>,
    materials: seq<Material>,
    pos: Vec3,
    rotate: Vec3,
    scale: Vec3)

  /** The camera as the editor stores it. */
  datatype Camera = Camera(x: real, y: real, z: real, pitch: real, yaw: real, roll: real)

  const ZeroCamera := Camera(0.0, 0.0, 0.0, 0.0, 0.0, 0.0)

  /** A viewport rectangle: origin, width and height in pixels. */
  datatype Rect = Rect(x: real, y: real, width: real, height: real)

  /** Every mesh keeps one selection flag per vertex. */
  predicate Aligned(m: Model) {
    forall k :: 0 <= k < |m.meshes| ==> |m.meshes[k].selected| == |m.meshes[k].vertices|
  }

  /** The number of indices drawn agrees with the uploaded index buffer. */
  predicate BuffersAgree(mesh: Mesh) {
    mesh.indexcount == |mesh.indexBuffer|
  }

  /** The offsets of a billboard's four corners in its own plane, in the order
      the billboard mesh lists them and the selection test visits them. */
  const BillboardCorners: seq<Vec2> := [Vec2(-0.5, -0.5), Vec2(0.5, -0.5), Vec2(-0.5, 0.5), Vec2(0.5, 0.5)]
}

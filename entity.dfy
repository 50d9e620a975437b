/** An entity of the editor: one current model with its selection flags and
    transform fields, and the operations that select vertices, scale the
    geometry and test a picking ray against its triangles.

    The matrix arithmetic of the source (model transform, view, projection,
    billboard transform, perspective division) is not modelled: a `Projector`
    gives the four billboard corners of a vertex in normalised device
    coordinates, and a transform function and a ray/triangle predicate are
    passed to the picking test. The mapping from device coordinates to screen
    pixels is modelled. */
module Entities {
  import opened Geometry

  /** Unsigned 32-bit integers (u32) wrap modulo 2^32. */
  const U32: int := 0x1_0000_0000

  /** The four corners of a vertex's billboard, in BillboardCorners order. */
  datatype Quad = Quad(c1: Vec2, c2: Vec2, c3: Vec2, c4: Vec2)

  /** The transform fields of a model: position, rotation, scale. */
  datatype Placement = Placement(pos: Vec3, rotate: Vec3, scale: Vec3)

  /** A selection rectangle as passed to `select`: a corner must lie right of
      `xIn` and below `yIn` (exclusive) and at most at `x2`, `y2` (inclusive). */
  datatype Selection = Selection(xIn: int, yIn: int, x2: int, y2: int)

  /** For a camera, the entity's placement and a vertex's model-space
      position: the four corners of the vertex's billboard after the model,
      billboard, view and projection transforms and the perspective division. */
  type Projector = (Camera, Placement, Vec3) -> Quad

  function PlacementOf(m: Model): Placement {
    Placement(m.pos, m.rotate, m.scale)
  }

  // ---------------------------------------------------------------------
  // Device coordinates to screen pixels

  /** Maps a point in normalised device coordinates into the viewport,
      flipping y so that screen y grows downwards. */
  function ToScreen(p: Vec2, viewport: Rect): Vec2 {
    Vec2((p.x + 1.0) * viewport.width / 2.0, viewport.height - (p.y + 1.0) * viewport.height / 2.0)
  }

  /** The device square [-1, 1] x [-1, 1] lands inside the viewport, its
      top-left corner (-1, 1) at (0, 0) and its bottom-right corner (1, -1) at
      (width, height), and a higher device y gives a smaller screen y. */
  lemma ToScreenMapsDeviceSquare(p: Vec2, q: Vec2, viewport: Rect)
    requires viewport.width >= 0.0 && viewport.height > 0.0
    ensures -1.0 <= p.x <= 1.0 && -1.0 <= p.y <= 1.0 ==>
              && 0.0 <= ToScreen(p, viewport).x <= viewport.width
              && 0.0 <= ToScreen(p, viewport).y <= viewport.height
    ensures ToScreen(Vec2(-1.0, 1.0), viewport) == Vec2(0.0, 0.0)
    ensures ToScreen(Vec2(1.0, -1.0), viewport) == Vec2(viewport.width, viewport.height)
    ensures p.y < q.y ==> ToScreen(p, viewport).y > ToScreen(q, viewport).y
  {
    var w, h := viewport.width, viewport.height;
    if -1.0 <= p.x <= 1.0 && -1.0 <= p.y <= 1.0 {
      ProductNonNegative(p.x + 1.0, w);
      ProductNonNegative(1.0 - p.x, w);
      ProductNonNegative(p.y + 1.0, h);
      ProductNonNegative(1.0 - p.y, h);
    }
    if p.y < q.y {
      ProductPositive(q.y - p.y, h);
    }
  }

  lemma ProductNonNegative(a: real, b: real)
    requires a >= 0.0 && b >= 0.0
    ensures a * b >= 0.0
  {
  }

  lemma ProductPositive(a: real, b: real)
    requires a > 0.0 && b > 0.0
    ensures a * b > 0.0
  {
  }

  function ScreenQuad(q: Quad, viewport: Rect): Quad {
    Quad(ToScreen(q.c1, viewport), ToScreen(q.c2, viewport), ToScreen(q.c3, viewport), ToScreen(q.c4, viewport))
  }

  // ---------------------------------------------------------------------
  // The selection test

  /** The half-open rectangle test applied to one screen corner. */
  predicate Inside(p: Vec2, sel: Selection) {
    p.x > sel.xIn as real && p.y > sel.yIn as real && p.x <= sel.x2 as real && p.y <= sel.y2 as real
  }

  predicate AnyCornerInside(q: Quad, sel: Selection) {
    Inside(q.c1, sel) || Inside(q.c2, sel) || Inside(q.c3, sel) || Inside(q.c4, sel)
  }

  /** The debug branch of `select` flags the vertex whose mesh-local index
      lies in (10, 11]. */
  predicate DebugForced(i: int) {
    10 < i <= 11
  }

  /** Whether `select` flags vertex `v`, the `i`-th of its mesh. */
  predicate VertexSelected(v: Vertex, i: int, placement: Placement, sel: Selection,
                           camera: Camera, project: Projector, viewport: Rect)
  {
    DebugForced(i) || AnyCornerInside(ScreenQuad(project(camera, placement, v.position), viewport), sel)
  }

  function SelectedMesh(mesh: Mesh, placement: Placement, sel: Selection,
                        camera: Camera, project: Projector, viewport: Rect): Mesh
    requires |mesh.selected| == |mesh.vertices|
  {
    mesh.(selected := seq(|mesh.vertices|, i requires 0 <= i < |mesh.vertices| =>
                             VertexSelected(mesh.vertices[i], i, placement, sel, camera, project, viewport)))
  }

  /** Reference definition of the model after `select`: every flag is
      recomputed from the vertex's position alone. */
  function SelectedModel(m: Model, sel: Selection, camera: Camera, project: Projector, viewport: Rect): Model
    requires Aligned(m)
  {
    m.(meshes := seq(|m.meshes|, k requires 0 <= k < |m.meshes| =>
                       SelectedMesh(m.meshes[k], PlacementOf(m), sel, camera, project, viewport)))
  }

  function ClearedMesh(mesh: Mesh): Mesh {
    mesh.(selected := seq(|mesh.selected|, _ => false))
  }

  /** Reference definition of the model after `reset_selected_vertices`. */
  function ClearedModel(m: Model): Model {
    m.(meshes := seq(|m.meshes|, k requires 0 <= k < |m.meshes| => ClearedMesh(m.meshes[k])))
  }

  /** Two models that differ at most in their selection flags. */
  predicate SameExceptFlags(a: Model, b: Model) {
    && a.(meshes := b.meshes) == b
    && |a.meshes| == |b.meshes|
    && forall k :: 0 <= k < |a.meshes| ==> a.meshes[k].(selected := b.meshes[k].selected) == b.meshes[k]
  }

  /** After a reset every flag is false; the number of flags, the geometry
      and the transform fields are unchanged. */
  lemma ClearedModelFacts(m: Model)
    ensures SameExceptFlags(m, ClearedModel(m))
    ensures Aligned(m) ==> Aligned(ClearedModel(m))
    ensures forall k, i :: 0 <= k < |m.meshes| && 0 <= i < |m.meshes[k].selected| ==>
              |ClearedModel(m).meshes[k].selected| == |m.meshes[k].selected| && !ClearedModel(m).meshes[k].selected[i]
  {
  }

  /** After `select`, vertex i of mesh k is flagged exactly when i == 11 or
      one of its four screen corners passes the rectangle test; nothing but
      the flags changes. */
  lemma SelectedModelFlags(m: Model, sel: Selection, camera: Camera, project: Projector, viewport: Rect)
    requires Aligned(m)
    ensures Aligned(SelectedModel(m, sel, camera, project, viewport))
    ensures SameExceptFlags(m, SelectedModel(m, sel, camera, project, viewport))
    ensures forall k, i :: 0 <= k < |m.meshes| && 0 <= i < |m.meshes[k].vertices| ==>
              (SelectedModel(m, sel, camera, project, viewport).meshes[k].selected[i] <==>
                 (i == 11 || AnyCornerInside(ScreenQuad(project(camera, PlacementOf(m), m.meshes[k].vertices[i].position), viewport), sel)))
  {
  }

  /** Whatever the rectangle, the vertex at mesh-local index 11 ends up flagged. */
  lemma SelectForcesIndexEleven(m: Model, sel: Selection, camera: Camera, project: Projector, viewport: Rect, k: nat)
    requires Aligned(m) && k < |m.meshes| && 11 < |m.meshes[k].vertices|
    ensures SelectedModel(m, sel, camera, project, viewport).meshes[k].selected[11]
  {
  }

  /** A rectangle with no interior (x2 <= xIn or y2 <= yIn) flags nothing
      but the debug vertex. */
  lemma EmptyRectangleSelectsOnlyDebugVertex(m: Model, sel: Selection, camera: Camera, project: Projector, viewport: Rect)
    requires Aligned(m) && (sel.x2 <= sel.xIn || sel.y2 <= sel.yIn)
    ensures forall k, i :: 0 <= k < |m.meshes| && 0 <= i < |m.meshes[k].vertices| && i != 11 ==>
              !SelectedModel(m, sel, camera, project, viewport).meshes[k].selected[i]
  {
  }

  /** The rectangle is closed at its upper corner and open at its lower
      edges: (x2, y2) passes when the rectangle is non-empty, a point on the
      line x = xIn or y = yIn never does. */
  lemma RectangleBoundary(sel: Selection, x: real, y: real)
    ensures Inside(Vec2(sel.x2 as real, sel.y2 as real), sel) <==> sel.xIn < sel.x2 && sel.yIn < sel.y2
    ensures !Inside(Vec2(sel.xIn as real, y), sel)
    ensures !Inside(Vec2(x, sel.yIn as real), sel)
  {
  }

  /** `select` rebuilds the flags from scratch: the flags held before the
      call do not influence the result. */
  lemma SelectIgnoresPriorFlags(a: Model, b: Model, sel: Selection,
                                                   camera: Camera, project: Projector, viewport: Rect)
    requires Aligned(a) && Aligned(b) && SameExceptFlags(a, b)
    ensures SelectedModel(a, sel, camera, project, viewport) == SelectedModel(b, sel, camera, project, viewport)
  {
    var ra, rb := SelectedModel(a, sel, camera, project, viewport), SelectedModel(b, sel, camera, project, viewport);
    assert PlacementOf(a) == PlacementOf(b);
    forall k | 0 <= k < |a.meshes|
      ensures ra.meshes[k] == rb.meshes[k]
    {
      assert a.meshes[k].vertices == b.meshes[k].vertices;
      assert a.meshes[k].(selected := b.meshes[k].selected) == b.meshes[k];
    }
    assert ra.meshes == rb.meshes;
  }

  /** Selecting twice with the same inputs gives the same flags as selecting once. */
  lemma SelectIdempotent(m: Model, sel: Selection, camera: Camera, project: Projector, viewport: Rect)
    requires Aligned(m)
    ensures Aligned(SelectedModel(m, sel, camera, project, viewport))
    ensures SelectedModel(SelectedModel(m, sel, camera, project, viewport), sel, camera, project, viewport)
         == SelectedModel(m, sel, camera, project, viewport)
  {
    var once := SelectedModel(m, sel, camera, project, viewport);
    SelectedModelFlags(m, sel, camera, project, viewport);
    SelectIgnoresPriorFlags(once, m, sel, camera, project, viewport);
  }

  // ---------------------------------------------------------------------
  // Selecting a vertex by its global number

  /** The number of vertices in meshes 0 .. k-1: the global number of the
      first vertex of mesh k. */
  function VerticesBefore(meshes: seq<Mesh>, k: nat): nat
    requires k <= |meshes|
  {
    if k == 0 then 0 else VerticesBefore(meshes, k - 1) + |meshes[k - 1].vertices|
  }

  function TotalVertices(meshes: seq<Mesh>): nat {
    VerticesBefore(meshes, |meshes|)
  }

  /** The value an integer takes when converted to a 32-bit unsigned integer. */
  function ToU32(n: int): (r: int)
    ensures 0 <= r < U32
    ensures 0 <= n < U32 ==> r == n
    ensures 0 <= n ==> r <= n
  {
    n % 0x1_0000_0000
  }

  /** Conversion to u32 commutes with addition. */
  lemma ToU32Shift(a: int, b: int)
    ensures ToU32(ToU32(a) + b) == ToU32(a + b)
  {
    var q := a / U32;
    assert a == U32 * q + ToU32(a);
    assert a + b == (ToU32(a) + b) + U32 * q;
  }

  /** The C++ comparison of a u32 counter with an int converts the int to u32. */
  predicate NumberMatches(counter: int, id: int) {
    ToU32(counter) == ToU32(id)
  }

  /** Some vertex among the first `count` of a mesh whose running number
      (counted from `first`) matches ID has its flag written through the
      local u32 index `n`: the inner loop's own counter `i`, which wraps too. */
  predicate WrittenThrough(count: nat, first: nat, id: int, n: int) {
    exists v :: 0 <= v < count && ToU32(v) == n && NumberMatches(first + v, id)
  }

  /** Reference definition for one mesh whose first vertex has running
      number `first`: a flag ends up set when it was set, or when it is
      written through for a matching vertex. */
  function IdSelectedMesh(mesh: Mesh, first: nat, id: int): Mesh {
    mesh.(selected := seq(|mesh.selected|, n requires 0 <= n < |mesh.selected| =>
                             mesh.selected[n] || WrittenThrough(|mesh.vertices|, first, id, n)))
  }

  /** The one local index that every match in a mesh is written through. */
  function MatchIndex(first: nat, id: int): (n: int)
    ensures 0 <= n < U32
    ensures 0 <= id - first < U32 ==> n == id - first
  {
    ToU32(id - first)
  }

  /** A running number matches ID exactly when the local u32 index of the
      vertex is the match index. */
  lemma MatchIffIndex(first: nat, v: nat, id: int)
    ensures NumberMatches(first + v, id) <==> ToU32(v) == MatchIndex(first, id)
  {
    ToU32Shift(first + v, -(first as int));
    ToU32Shift(id, -(first as int));
    ToU32Shift(v, first);
    ToU32Shift(id - first, first);
  }

  /** Among the first `count` vertices, index n is written through exactly
      when it is the match index and lies below `count`. */
  lemma WrittenThroughMatchIndex(count: nat, first: nat, id: int, n: int)
    requires 0 <= n
    ensures WrittenThrough(count, first, id, n) <==> n == MatchIndex(first, id) && n < count
  {
    if WrittenThrough(count, first, id, n) {
      var v :| 0 <= v < count && ToU32(v) == n && NumberMatches(first + v, id);
      MatchIffIndex(first, v, id);
    }
    if n == MatchIndex(first, id) && n < count {
      MatchIffIndex(first, n, id);
      assert 0 <= n < count && ToU32(n) == n && NumberMatches(first + n, id);
    }
  }

  /** The mesh with at most the match index flagged: since `i` wraps with
      `j`, every match in one mesh lands on the same flag. */
  function MarkedAtMatch(mesh: Mesh, first: nat, id: int, count: nat): Mesh {
    var n := MatchIndex(first, id);
    if n < count && n < |mesh.selected| then mesh.(selected := mesh.selected[n := true]) else mesh
  }

  /** `set_vertex_ID_selected` sets at most one flag per mesh, the one at the
      match index, and only when the mesh has that many vertices. */
  lemma IdSelectedMeshAtMatch(mesh: Mesh, first: nat, id: int)
    ensures IdSelectedMesh(mesh, first, id) == MarkedAtMatch(mesh, first, id, |mesh.vertices|)
  {
    var r := IdSelectedMesh(mesh, first, id);
    var c := MarkedAtMatch(mesh, first, id, |mesh.vertices|);
    forall n | 0 <= n < |mesh.selected|
      ensures r.selected[n] == c.selected[n]
    {
      WrittenThroughMatchIndex(|mesh.vertices|, first, id, n);
    }
    assert r.selected == c.selected;
  }

  /** On a mesh of more than 2^32 + 3 vertices numbered from 0, ID 3 matches
      vertices 3 and 2^32 + 3; both are written through flag 3, and the flag
      of vertex 2^32 + 3 stays as it was. */
  lemma WrappedIndexRewritesSameFlag(mesh: Mesh)
    requires |mesh.selected| == |mesh.vertices| > U32 + 3
    ensures IdSelectedMesh(mesh, 0, 3).selected[3]
    ensures IdSelectedMesh(mesh, 0, 3).selected[U32 + 3] == mesh.selected[U32 + 3]
  {
    IdSelectedMeshAtMatch(mesh, 0, 3);
  }

  /** Reference definition of the model after `set_vertex_ID_selected(id)`. */
  function IdSelectedMeshes(meshes: seq<Mesh>, id: int): seq<Mesh> {
    seq(|meshes|, k requires 0 <= k < |meshes| => IdSelectedMesh(meshes[k], VerticesBefore(meshes, k), id))
  }

  function IdSelectedModel(m: Model, id: int): Model {
    m.(meshes := IdSelectedMeshes(m.meshes, id))
  }

  /** The meshes as the loop of `set_vertex_ID_selected` leaves them, mesh by
      mesh, when its counter reaches the first of them at `first`. */
  function MarkedFrom(meshes: seq<Mesh>, first: nat, id: int): (r: seq<Mesh>)
    ensures |r| == |meshes|
    decreases |meshes|
  {
    if meshes == [] then []
    else [IdSelectedMesh(meshes[0], first, id)] + MarkedFrom(meshes[1..], first + |meshes[0].vertices|, id)
  }

  /** Dropping the first mesh shifts every vertex count by that mesh's size. */
  lemma {:induction false} VerticesBeforeTail(meshes: seq<Mesh>, k: nat)
    requires 0 < |meshes| && k < |meshes|
    ensures |meshes[0].vertices| + VerticesBefore(meshes[1..], k) == VerticesBefore(meshes, k + 1)
    decreases k
  {
    if k > 0 {
      VerticesBeforeTail(meshes, k - 1);
    }
  }

  /** Mesh k of the traversal is marked with its own global vertex numbers. */
  lemma {:induction false} MarkedFromAt(meshes: seq<Mesh>, first: nat, id: int, k: nat)
    requires k < |meshes|
    ensures MarkedFrom(meshes, first, id)[k] == IdSelectedMesh(meshes[k], first + VerticesBefore(meshes, k), id)
    decreases k
  {
    if k > 0 {
      MarkedFromAt(meshes[1..], first + |meshes[0].vertices|, id, k - 1);
      VerticesBeforeTail(meshes, k - 1);
    }
  }

  /** The traversal from vertex number 0 is the reference definition. */
  lemma MarkedFromIsIdSelected(meshes: seq<Mesh>, id: int)
    ensures MarkedFrom(meshes, 0, id) == IdSelectedMeshes(meshes, id)
  {
    forall k | 0 <= k < |meshes|
      ensures MarkedFrom(meshes, 0, id)[k] == IdSelectedMeshes(meshes, id)[k]
    {
      MarkedFromAt(meshes, 0, id, k);
    }
  }

  lemma {:induction false} VerticesBeforeGrows(meshes: seq<Mesh>, a: nat, b: nat)
    requires a < b <= |meshes|
    ensures VerticesBefore(meshes, a) + |meshes[a].vertices| <= VerticesBefore(meshes, b)
    decreases b
  {
    if a < b - 1 {
      VerticesBeforeGrows(meshes, a, b - 1);
    }
  }

  /** The global numbering is one-to-one: distinct (mesh, local index) pairs
      get distinct numbers. */
  lemma GlobalNumberInjective(meshes: seq<Mesh>, k1: nat, i1: nat, k2: nat, i2: nat)
    requires k1 < |meshes| && i1 < |meshes[k1].vertices|
    requires k2 < |meshes| && i2 < |meshes[k2].vertices|
    requires GlobalNumber(meshes, k1, i1) == GlobalNumber(meshes, k2, i2)
    ensures k1 == k2 && i1 == i2
  {
    if k1 < k2 {
      VerticesBeforeGrows(meshes, k1, k2);
    } else if k2 < k1 {
      VerticesBeforeGrows(meshes, k2, k1);
    }
  }

  /** The global number of vertex i of mesh n. */
  function GlobalNumber(meshes: seq<Mesh>, n: nat, i: nat): nat
    requires n <= |meshes|
  {
    VerticesBefore(meshes, n) + i
  }

  /** Every number below the vertex count of meshes 0 .. k-1 belongs to a
      vertex of one of them. */
  lemma {:induction false} GlobalNumberOnto(meshes: seq<Mesh>, k: nat, g: nat)
    requires k <= |meshes| && g < VerticesBefore(meshes, k)
    ensures exists n, i :: 0 <= n < k && 0 <= i < |meshes[n].vertices| && GlobalNumber(meshes, n, i) == g
    decreases k
  {
    if g < VerticesBefore(meshes, k - 1) {
      GlobalNumberOnto(meshes, k - 1, g);
      var n, i :| 0 <= n < k - 1 && 0 <= i < |meshes[n].vertices| && GlobalNumber(meshes, n, i) == g;
      assert 0 <= n < k;
    } else {
      var i := g - VerticesBefore(meshes, k - 1);
      assert GlobalNumber(meshes, k - 1, i) == g;
    }
  }

  /** Every vertex's global number is below the vertex total. */
  lemma GlobalNumberBelowTotal(meshes: seq<Mesh>, k: nat, i: nat)
    requires k < |meshes| && i < |meshes[k].vertices|
    ensures GlobalNumber(meshes, k, i) < TotalVertices(meshes)
  {
    VerticesBeforeGrows(meshes, k, |meshes|);
  }

  /** Incrementing a wrapped u32 counter keeps it the wrapped count. */
  lemma CounterStep(j: int, count: nat)
    requires j == ToU32(count)
    ensures ToU32(j + 1) == ToU32(count + 1)
  {
  }

  /** For an ID in range, `set_vertex_ID_selected` sets exactly the flag of
      the vertex whose global number is ID, keeps every other flag, and
      such a vertex exists. */
  lemma IdSelectSetsExactlyThatVertex(m: Model, id: int)
    requires Aligned(m) && 0 <= id < TotalVertices(m.meshes) <= U32
    ensures exists k, i :: 0 <= k < |m.meshes| && 0 <= i < |m.meshes[k].vertices| && GlobalNumber(m.meshes, k, i) == id
    ensures forall k, i :: 0 <= k < |m.meshes| && 0 <= i < |m.meshes[k].selected| ==>
              IdSelectedModel(m, id).meshes[k].selected[i] == (m.meshes[k].selected[i] || GlobalNumber(m.meshes, k, i) == id)
  {
    GlobalNumberOnto(m.meshes, |m.meshes|, id);
    forall k | 0 <= k < |m.meshes|
      ensures forall i :: 0 <= i < |m.meshes[k].selected| ==>
                IdSelectedModel(m, id).meshes[k].selected[i] == (m.meshes[k].selected[i] || GlobalNumber(m.meshes, k, i) == id)
    {
      VerticesBeforeGrows(m.meshes, k, |m.meshes|);
      IdSelectedMeshFlags(m.meshes[k], VerticesBefore(m.meshes, k), id);
    }
  }

  /** Within one mesh whose numbers stay in u32 range, exactly the vertex
      numbered ID gets its flag set. */
  lemma IdSelectedMeshFlags(mesh: Mesh, first: nat, id: int)
    requires first + |mesh.selected| <= U32 && 0 <= id < U32
    ensures forall i :: 0 <= i < |mesh.selected| ==>
              IdSelectedMesh(mesh, first, id).selected[i] == (mesh.selected[i] || (first + i == id && i < |mesh.vertices|))
  {
    IdSelectedMeshAtMatch(mesh, first, id);
    if id < first {
      assert MatchIndex(first, id) == id - first + U32;
    }
  }

  /** When no vertex carries the unsigned value of ID as its number (for
      example an ID beyond the vertex total, or a negative ID on a model of
      at most 2^31 vertices), `set_vertex_ID_selected` changes nothing. */
  lemma IdSelectUnmatchedChangesNothing(m: Model, id: int)
    requires Aligned(m) && TotalVertices(m.meshes) <= ToU32(id)
    ensures IdSelectedModel(m, id) == m
  {
    var r := IdSelectedModel(m, id);
    forall k | 0 <= k < |m.meshes|
      ensures r.meshes[k] == m.meshes[k]
    {
      VerticesBeforeGrows(m.meshes, k, |m.meshes|);
      IdSelectedMeshUnmatched(m.meshes[k], VerticesBefore(m.meshes, k), id);
    }
    assert r.meshes == m.meshes;
  }

  /** A mesh whose vertex numbers all lie below the unsigned value of ID is
      left as it is. */
  lemma IdSelectedMeshUnmatched(mesh: Mesh, first: nat, id: int)
    requires first + |mesh.selected| <= ToU32(id)
    ensures IdSelectedMesh(mesh, first, id) == mesh
  {
    IdSelectedMeshAtMatch(mesh, first, id);
    ToU32Shift(id, -(first as int));
  }

  /** A negative ID selects nothing on a model with at most 2^31 vertices. */
  lemma IdSelectNegativeChangesNothing(m: Model, id: int)
    requires Aligned(m) && -0x8000_0000 <= id < 0 && TotalVertices(m.meshes) <= 0x8000_0000
    ensures IdSelectedModel(m, id) == m
  {
    assert ToU32(id) == id + U32;
    IdSelectUnmatchedChangesNothing(m, id);
  }

  /** `set_vertex_ID_selected` never clears a flag and changes nothing but flags. */
  lemma IdSelectNeverClears(m: Model, id: int)
    ensures SameExceptFlags(m, IdSelectedModel(m, id))
    ensures Aligned(m) ==> Aligned(IdSelectedModel(m, id))
    ensures forall k, i :: 0 <= k < |m.meshes| && 0 <= i < |m.meshes[k].selected| && m.meshes[k].selected[i] ==>
              IdSelectedModel(m, id).meshes[k].selected[i]
  {
  }

  // ---------------------------------------------------------------------
  // Scaling

  function ScaledVec(v: Vec3, f: real): Vec3 {
    Vec3(v.x * f, v.y * f, v.z * f)
  }

  function ScaledVertices(vs: seq<Vertex>, f: real): seq<Vertex> {
    seq(|vs|, i requires 0 <= i < |vs| => vs[i].(position := ScaledVec(vs[i].position, f)))
  }

  /** A mesh after its positions are scaled and its vertex buffer re-uploaded. */
  function ScaledMesh(mesh: Mesh, f: real): Mesh {
    mesh.(vertices := ScaledVertices(mesh.vertices, f), vertexBuffer := ScaledVertices(mesh.vertices, f))
  }

  /** Reference definition of the model after `scale_entity(f)`. */
  function ScaledModel(m: Model, f: real): Model {
    m.(meshes := seq(|m.meshes|, k requires 0 <= k < |m.meshes| => ScaledMesh(m.meshes[k], f)))
  }

  /** Scaling multiplies x, y and z of every position by f and changes no
      normal, uv, index, flag, vertex count or transform field. */
  lemma ScaledModelFacts(m: Model, f: real)
    ensures |ScaledModel(m, f).meshes| == |m.meshes|
    ensures ScaledModel(m, f).(meshes := m.meshes) == m
    ensures Aligned(m) ==> Aligned(ScaledModel(m, f))
    ensures forall k :: 0 <= k < |m.meshes| ==>
              && ScaledModel(m, f).meshes[k].indices == m.meshes[k].indices
              && ScaledModel(m, f).meshes[k].selected == m.meshes[k].selected
              && |ScaledModel(m, f).meshes[k].vertices| == |m.meshes[k].vertices|
    ensures forall k, i :: 0 <= k < |m.meshes| && 0 <= i < |m.meshes[k].vertices| ==>
              && ScaledModel(m, f).meshes[k].vertices[i].position ==
                   Vec3(m.meshes[k].vertices[i].position.x * f, m.meshes[k].vertices[i].position.y * f, m.meshes[k].vertices[i].position.z * f)
              && ScaledModel(m, f).meshes[k].vertices[i].normal == m.meshes[k].vertices[i].normal
              && ScaledModel(m, f).meshes[k].vertices[i].uv == m.meshes[k].vertices[i].uv
  {
  }

  lemma ScaledVecComposes(v: Vec3, f: real, g: real)
    ensures ScaledVec(ScaledVec(v, f), g) == ScaledVec(v, f * g)
  {
    assert v.x * f * g == v.x * (f * g);
    assert v.y * f * g == v.y * (f * g);
    assert v.z * f * g == v.z * (f * g);
  }

  /** Scaling by f and then by g is scaling by f * g. */
  lemma ScaleComposes(m: Model, f: real, g: real)
    ensures ScaledModel(ScaledModel(m, f), g) == ScaledModel(m, f * g)
  {
    var lhs, rhs := ScaledModel(ScaledModel(m, f), g), ScaledModel(m, f * g);
    forall k | 0 <= k < |m.meshes|
      ensures lhs.meshes[k] == rhs.meshes[k]
    {
      var vs := m.meshes[k].vertices;
      forall i | 0 <= i < |vs|
        ensures ScaledVertices(ScaledVertices(vs, f), g)[i] == ScaledVertices(vs, f * g)[i]
      {
        ScaledVecComposes(vs[i].position, f, g);
      }
      assert ScaledVertices(ScaledVertices(vs, f), g) == ScaledVertices(vs, f * g);
    }
    assert lhs.meshes == rhs.meshes;
  }

  // ---------------------------------------------------------------------
  // Picking

  /** Every mesh lists whole triangles whose indices name its vertices. */
  predicate TrianglesInRange(m: Model) {
    forall k :: 0 <= k < |m.meshes| ==>
      && |m.meshes[k].indices| % 3 == 0
      && forall n :: 0 <= n < |m.meshes[k].indices| ==> m.meshes[k].indices[n] < |m.meshes[k].vertices|
  }

  /** Whether the ray (o, d) hits triangle t of `mesh`, its corners carried
      through `transform`, according to the ray/triangle test `rayTri`. */
  predicate TriangleHit(mesh: Mesh, t: nat, placement: Placement, o: Vec3, d: Vec3,
                        transform: (Placement, Vec3) -> Vec3, rayTri: (Vec3, Vec3, Vec3, Vec3, Vec3) -> bool)
    requires 3 * t + 3 <= |mesh.indices|
    requires forall n :: 0 <= n < |mesh.indices| ==> mesh.indices[n] < |mesh.vertices|
  {
    rayTri(o, d,
           transform(placement, mesh.vertices[mesh.indices[3 * t]].position),
           transform(placement, mesh.vertices[mesh.indices[3 * t + 1]].position),
           transform(placement, mesh.vertices[mesh.indices[3 * t + 2]].position))
  }

  /** The body of `select`'s inner loop for one vertex: the debug branch,
      then the rectangle test on each of the four screen corners. */
  method TestVertex(v: Vertex, i: int, placement: Placement, sel: Selection,
                    camera: Camera, project: Projector, viewport: Rect) returns (hit: bool)
    ensures hit == VertexSelected(v, i, placement, sel, camera, project, viewport)
  {
    var corners := project(camera, placement, v.position);
    var v1 := ToScreen(corners.c1, viewport);
    var v2 := ToScreen(corners.c2, viewport);
    var v3 := ToScreen(corners.c3, viewport);
    var v4 := ToScreen(corners.c4, viewport);
    hit := false;
    if i > 10 && i <= 11 {
      hit := true;
    }
    if v1.x > sel.xIn as real && v1.y > sel.yIn as real && v1.x <= sel.x2 as real && v1.y <= sel.y2 as real {
      hit := true;
    }
    if v2.x > sel.xIn as real && v2.y > sel.yIn as real && v2.x <= sel.x2 as real && v2.y <= sel.y2 as real {
      hit := true;
    }
    if v3.x > sel.xIn as real && v3.y > sel.yIn as real && v3.x <= sel.x2 as real && v3.y <= sel.y2 as real {
      hit := true;
    }
    if v4.x > sel.xIn as real && v4.y > sel.yIn as real && v4.x <= sel.x2 as real && v4.y <= sel.y2 as real {
      hit := true;
    }
  }

  /** `select`'s inner loop over the vertices of one mesh whose flags have
      just been cleared: every vertex that passes the test gets its flag set. */
  method SelectMeshVertices(cleared: Mesh, placement: Placement, sel: Selection,
                            camera: Camera, project: Projector, viewport: Rect) returns (m: Mesh)
    requires |cleared.selected| == |cleared.vertices|
    requires forall n :: 0 <= n < |cleared.selected| ==> !cleared.selected[n]
    ensures m == SelectedMesh(cleared, placement, sel, camera, project, viewport)
  {
    m := cleared;
    var i := 0;
    while i < |m.vertices|
      invariant 0 <= i <= |m.vertices| == |cleared.vertices| == |m.selected|
      invariant m == cleared.(selected := m.selected)
      invariant forall n :: 0 <= n < i ==>
                  m.selected[n] == VertexSelected(m.vertices[n], n, placement, sel, camera, project, viewport)
      invariant forall n :: i <= n < |m.selected| ==> !m.selected[n]
    {
      var hit := TestVertex(m.vertices[i], i, placement, sel, camera, project, viewport);
      if hit {
        m := m.(selected := m.selected[i := true]);
      }
      i := i + 1;
    }
    assert m.selected == SelectedMesh(cleared, placement, sel, camera, project, viewport).selected;
  }

  /** The inner loop of `set_vertex_ID_selected` over one mesh: `j` is the
      wrapped u32 number of the mesh's first vertex, `first` that number
      unwrapped, and `i` the loop's own u32 index into the flags. The flag
      at `i` is set for each vertex whose number equals `id`, and the
      counter is returned advanced past the mesh. */
  method MarkMeshVertices(mesh: Mesh, id: int, j0: int, ghost first: nat) returns (marked: Mesh, j: int)
    requires |mesh.selected| == |mesh.vertices|
    requires j0 == ToU32(first)
    ensures marked == IdSelectedMesh(mesh, first, id)
    ensures j == ToU32(first + |mesh.vertices|)
  {
    marked, j := mesh, j0;
    var i := 0;
    var v := 0;  // the position of the range-for over the vertices
    while v < |mesh.vertices|
      invariant 0 <= v <= |mesh.vertices|
      invariant i == ToU32(v) && j == ToU32(first + v)
      invariant marked == MarkedAtMatch(mesh, first, id, v)
    {
      MatchIffIndex(first, v, id);
      if j == ToU32(id) {
        marked := marked.(selected := marked.selected[i := true]);
      }
      CounterStep(i, v);
      CounterStep(j, first + v);
      i := ToU32(i + 1);
      j := ToU32(j + 1);
      v := v + 1;
    }
    IdSelectedMeshAtMatch(mesh, first, id);
  }

  /** The outer loop of `set_vertex_ID_selected`: one u32 counter runs
      through the vertices of all meshes in order. */
  method MarkNumberedVertices(meshes: seq<Mesh>, id: int) returns (marked: seq<Mesh>)
    requires forall k :: 0 <= k < |meshes| ==> |meshes[k].selected| == |meshes[k].vertices|
    ensures marked == IdSelectedMeshes(meshes, id)
  {
    ghost var count: nat := 0;
    marked := [];
    var j := 0;
    var k := 0;
    while k < |meshes|
      invariant 0 <= k <= |meshes|
      invariant j == ToU32(count)
      invariant marked + MarkedFrom(meshes[k..], count, id) == MarkedFrom(meshes, 0, id)
    {
      var m;
      m, j := MarkMeshVertices(meshes[k], id, j, count);
      assert meshes[k..][1..] == meshes[k + 1..];
      assert MarkedFrom(meshes[k..], count, id) == [m] + MarkedFrom(meshes[k + 1..], count + |meshes[k].vertices|, id);
      assert (marked + [m]) + MarkedFrom(meshes[k + 1..], count + |meshes[k].vertices|, id)
          == marked + ([m] + MarkedFrom(meshes[k + 1..], count + |meshes[k].vertices|, id));
      marked := marked + [m];
      count := count + |meshes[k].vertices|;
      k := k + 1;
    }
    assert marked == marked + MarkedFrom(meshes[k..], count, id);
    MarkedFromIsIdSelected(meshes, id);
  }

  // ---------------------------------------------------------------------
  // The entity

  class Entity {
    var current: Model
    var start: Model

    /** An empty model with all three transform fields zero (scale included). */
    constructor ()
      ensures current == Model([], [], Zero3, Zero3, Zero3) && start == current
    {
      current := Model([], [], Zero3, Zero3, Zero3);
      start := current;
    }

    /** Replaces the current model with the one the model loader produced. */
    method Load(loaded: Model)
      modifies this`current
      ensures current == loaded
    {
      current := loaded;
    }

    method SetPosition(pos: Vec3)
      modifies this`current
      ensures current == old(current).(pos := pos)
    {
      current := current.(pos := pos);
    }

    method SetRotation(rotate: Vec3)
      modifies this`current
      ensures current == old(current).(rotate := rotate)
    {
      current := current.(rotate := rotate);
    }

    method SetScale(scale: Vec3)
      modifies this`current
      ensures current == old(current).(scale := scale)
    {
      current := current.(scale := scale);
    }

    /** Clears every selection flag of every mesh. */
    method ResetSelectedVertices()
      modifies this`current
      ensures current == ClearedModel(old(current))
    {
      var k := 0;
      while k < |current.meshes|
        invariant 0 <= k <= |current.meshes| == |old(current.meshes)|
        invariant current == old(current).(meshes := current.meshes)
        invariant forall n :: 0 <= n < k ==> current.meshes[n] == ClearedMesh(old(current.meshes[n]))
        invariant forall n :: k <= n < |current.meshes| ==> current.meshes[n] == old(current.meshes[n])
      {
        var m := current.meshes[k];
        var i := 0;
        while i < |m.selected|
          invariant 0 <= i <= |m.selected| == |old(current.meshes[k].selected)|
          invariant m == old(current.meshes[k]).(selected := m.selected)
          invariant forall n :: 0 <= n < i ==> !m.selected[n]
          invariant forall n :: i <= n < |m.selected| ==> m.selected[n] == old(current.meshes[k].selected[n])
        {
          m := m.(selected := m.selected[i := false]);
          i := i + 1;
        }
        current := current.(meshes := current.meshes[k := m]);
        k := k + 1;
      }
      assert current.meshes == ClearedModel(old(current)).meshes;
    }

    /** Rebuilds the selection flags from the rectangle `sel`: each vertex's
        four billboard corners are mapped to the screen and the vertex is
        flagged when one of them passes the rectangle test (or it is the
        debug vertex). */
    method Select(sel: Selection, camera: Camera, project: Projector, viewport: Rect)
      requires Aligned(current)
      modifies this`current
      ensures Aligned(current)
      ensures current == SelectedModel(old(current), sel, camera, project, viewport)
    {
      var placement := PlacementOf(current);
      ResetSelectedVertices();
      var k := 0;
      while k < |current.meshes|
        invariant 0 <= k <= |current.meshes| == |old(current.meshes)|
        invariant current == old(current).(meshes := current.meshes)
        invariant forall n :: 0 <= n < k ==>
                    current.meshes[n] == SelectedMesh(old(current.meshes[n]), placement, sel, camera, project, viewport)
        invariant forall n :: k <= n < |current.meshes| ==> current.meshes[n] == ClearedMesh(old(current.meshes[n]))
      {
        var m := SelectMeshVertices(current.meshes[k], placement, sel, camera, project, viewport);
        assert m == SelectedMesh(old(current.meshes[k]), placement, sel, camera, project, viewport);
        current := current.(meshes := current.meshes[k := m]);
        k := k + 1;
      }
      assert current.meshes == SelectedModel(old(current), sel, camera, project, viewport).meshes;
    }

    /** Numbers the vertices consecutively across all meshes with a u32
        counter and sets the flag of the vertex whose number equals `id`. */
    method SetVertexIdSelected(id: int)
      requires Aligned(current)
      modifies this`current
      ensures Aligned(current)
      ensures current == IdSelectedModel(old(current), id)
    {
      var marked := MarkNumberedVertices(current.meshes, id);
      current := current.(meshes := marked);
    }

    /** Multiplies every vertex position by `factor` and re-uploads each
        mesh's vertices to its vertex buffer. */
    method ScaleEntity(factor: real)
      modifies this`current
      ensures current == ScaledModel(old(current), factor)
    {
      var k := 0;
      while k < |current.meshes|
        invariant 0 <= k <= |current.meshes| == |old(current.meshes)|
        invariant current == old(current).(meshes := current.meshes)
        invariant forall n :: 0 <= n < k ==> current.meshes[n] == ScaledMesh(old(current.meshes[n]), factor)
        invariant forall n :: k <= n < |current.meshes| ==> current.meshes[n] == old(current.meshes[n])
      {
        var m := current.meshes[k];
        ghost var before := old(current.meshes[k]);
        var i := 0;
        while i < |m.vertices|
          invariant 0 <= i <= |m.vertices| == |before.vertices|
          invariant m == before.(vertices := m.vertices)
          invariant forall n :: 0 <= n < i ==> m.vertices[n] == ScaledVertices(before.vertices, factor)[n]
          invariant forall n :: i <= n < |m.vertices| ==> m.vertices[n] == before.vertices[n]
        {
          var v := m.vertices[i];
          var p := Vec3(v.position.x * factor, v.position.y * factor, v.position.z * factor);
          m := m.(vertices := m.vertices[i := v.(position := p)]);
          i := i + 1;
        }
        assert m.vertices == ScaledVertices(before.vertices, factor);
        m := m.(vertexBuffer := m.vertices);
        current := current.(meshes := current.meshes[k := m]);
        k := k + 1;
      }
      assert current.meshes == ScaledModel(old(current), factor).meshes;
    }

    /** Tests the ray (o, d) against every triangle of every mesh, in order,
        and reports whether one of them is hit. */
    method IsMouseOver(o: Vec3, d: Vec3, transform: (Placement, Vec3) -> Vec3,
                       rayTri: (Vec3, Vec3, Vec3, Vec3, Vec3) -> bool) returns (hit: bool)
      requires TrianglesInRange(current)
      ensures hit <==> exists k, t :: 0 <= k < |current.meshes| && 0 <= t < |current.meshes[k].indices| / 3 &&
                                      TriangleHit(current.meshes[k], t, PlacementOf(current), o, d, transform, rayTri)
      ensures (forall k :: 0 <= k < |current.meshes| ==> current.meshes[k].indices == []) ==> !hit
    {
      var placement := PlacementOf(current);
      var k := 0;
      while k < |current.meshes|
        invariant 0 <= k <= |current.meshes|
        invariant forall n, t :: 0 <= n < k && 0 <= t < |current.meshes[n].indices| / 3 ==>
                    !TriangleHit(current.meshes[n], t, placement, o, d, transform, rayTri)
      {
        var m := current.meshes[k];
        var i := 0;
        while i < |m.indices|
          invariant 0 <= i <= |m.indices| && i % 3 == 0
          invariant forall t :: 0 <= t < i / 3 ==> !TriangleHit(m, t, placement, o, d, transform, rayTri)
        {
          var one := m.vertices[m.indices[i]];
          var two := m.vertices[m.indices[i + 1]];
          var three := m.vertices[m.indices[i + 2]];
          if rayTri(o, d, transform(placement, one.position), transform(placement, two.position), transform(placement, three.position)) {
            assert (3 * (i / 3)) == i;
            assert TriangleHit(m, i / 3, placement, o, d, transform, rayTri);
            return true;
          }
          assert (3 * (i / 3)) == i;
          i := i + 3;
        }
        k := k + 1;
      }
      return false;
    }
  }
}

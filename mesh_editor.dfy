/** The editor: the list of entities, the camera, the billboard mesh and
    the circle texture drawn over each vertex, and the operations the
    front end calls on them. */
module Editor {
  import opened Geometry
  import opened Render
  import opened Entities

  newtype Byte = x: int | 0 <= x < 256

  // ---------------------------------------------------------------------
  // The circle texture

  /** Side of the square circle texture, in pixels. */
  const Side: int := 64
  /** Bytes of the RGBA pixel buffer: Side * Side pixels of 4 bytes, 16384 in all. */
  const PixelBytes: int := Side * Side * 4

  /** Offset of channel c of pixel (x, y) in the row-major RGBA buffer. */
  function PixelIndex(x: int, y: int, c: int): int {
    (x + y * Side) * 4 + c
  }

  /** The column, row and channel a byte offset belongs to. */
  function PixelX(b: int): int { (b / 4) % Side }
  function PixelY(b: int): int { b / (4 * Side) }
  function Channel(b: int): int { b % 4 }

  /** Pixel (x, y) lies strictly inside the circle of radius 32 around (32, 32). */
  predicate InsideCircle(x: int, y: int) {
    (32 - x) * (32 - x) + (32 - y) * (32 - y) < 1024
  }

  /** The value of byte b: all four channels 255 inside the circle, 0 outside. */
  function CircleByte(b: int): Byte {
    if InsideCircle(PixelX(b), PixelY(b)) then 255 else 0
  }

  /** The whole pixel buffer as the constructor leaves it. */
  function CircleImage(): (image: seq<Byte>)
    ensures |image| == PixelBytes
  {
    seq(PixelBytes, b => CircleByte(b))
  }

  /** Every pixel and channel gets its own offset inside the buffer, and
      the offset decodes back to that pixel and channel. */
  lemma PixelIndexDecodes(x: int, y: int, c: int)
    requires 0 <= x < Side && 0 <= y < Side && 0 <= c < 4
    ensures 0 <= PixelIndex(x, y, c) < PixelBytes
    ensures PixelX(PixelIndex(x, y, c)) == x
    ensures PixelY(PixelIndex(x, y, c)) == y
    ensures Channel(PixelIndex(x, y, c)) == c
  {
    var b := PixelIndex(x, y, c);
    assert b == 4 * (x + Side * y) + c;
    assert b / 4 == x + Side * y;
    assert b == 4 * Side * y + (4 * x + c);
  }

  /** Every byte of the buffer is the offset of some pixel's channel: the
      offsets cover the buffer. */
  lemma ByteIsPixelIndex(b: int)
    requires 0 <= b < PixelBytes
    ensures 0 <= PixelX(b) < Side && 0 <= PixelY(b) < Side && 0 <= Channel(b) < 4
    ensures PixelIndex(PixelX(b), PixelY(b), Channel(b)) == b
  {
    var q := b / 4;
    assert b == 4 * q + b % 4;
    assert q == Side * (q / Side) + q % Side;
    assert q / Side == b / (4 * Side);
  }

  /** Two distinct (pixel, channel) triples never share an offset: every
      byte is written exactly once. */
  lemma PixelIndexInjective(x1: int, y1: int, c1: int, x2: int, y2: int, c2: int)
    requires 0 <= x1 < Side && 0 <= y1 < Side && 0 <= c1 < 4
    requires 0 <= x2 < Side && 0 <= y2 < Side && 0 <= c2 < 4
    requires PixelIndex(x1, y1, c1) == PixelIndex(x2, y2, c2)
    ensures x1 == x2 && y1 == y2 && c1 == c2
  {
    PixelIndexDecodes(x1, y1, c1);
    PixelIndexDecodes(x2, y2, c2);
  }

  /** All four channels of a pixel hold the same value, 255 exactly when the
      pixel lies inside the circle. */
  lemma CircleImagePixels(x: int, y: int, c: int)
    requires 0 <= x < Side && 0 <= y < Side && 0 <= c < 4
    ensures CircleImage()[PixelIndex(x, y, c)] == (if InsideCircle(x, y) then 255 else 0)
  {
    PixelIndexDecodes(x, y, c);
  }

  /** A byte at offset b belongs to pixel (x, y) exactly when it lies in
      that pixel's four-byte run. */
  lemma SamePixel(b: int, x: int, y: int)
    requires 0 <= b < PixelBytes && 0 <= x < Side && 0 <= y < Side
    ensures (PixelX(b) == x && PixelY(b) == y) <==> PixelIndex(x, y, 0) <= b < PixelIndex(x, y, 0) + 4
  {
    ByteIsPixelIndex(b);
    if PixelIndex(x, y, 0) <= b < PixelIndex(x, y, 0) + 4 {
      PixelIndexDecodes(x, y, b - PixelIndex(x, y, 0));
    }
  }

  /** Byte b has been written once the loops have passed its pixel: every
      column before x, and the rows before y of column x. */
  predicate Written(b: int, x: int, y: int) {
    PixelX(b) < x || (PixelX(b) == x && PixelY(b) < y)
  }

  /** The constructor's nested column/row loop that fills the RGBA buffer of
      the circle texture. */
  method FillCirclePixels(pixels: array<Byte>)
    requires pixels.Length == PixelBytes
    modifies pixels
    ensures pixels[..] == CircleImage()
  {
    var x := 0;
    while x < Side
      invariant 0 <= x <= Side
      invariant forall b :: 0 <= b < PixelBytes && PixelX(b) < x ==> pixels[b] == CircleByte(b)
    {
      var y := 0;
      while y < Side
        invariant 0 <= y <= Side
        invariant forall b :: 0 <= b < PixelBytes && Written(b, x, y) ==> pixels[b] == CircleByte(b)
      {
        FillPixel(pixels, x, y);
        y := y + 1;
      }
      forall b | 0 <= b < PixelBytes && PixelX(b) < x + 1
        ensures pixels[b] == CircleByte(b)
      {
        ByteIsPixelIndex(b);
        assert Written(b, x, Side);
      }
      x := x + 1;
    }
    forall b | 0 <= b < PixelBytes
      ensures pixels[b] == CircleImage()[b]
    {
      ByteIsPixelIndex(b);
    }
  }

  /** The body of the fill loop for pixel (x, y): its four bytes are set to
      255 inside the circle and to 0 outside; no other byte changes. */
  method FillPixel(pixels: array<Byte>, x: int, y: int)
    requires pixels.Length == PixelBytes && 0 <= x < Side && 0 <= y < Side
    requires forall b :: 0 <= b < PixelBytes && Written(b, x, y) ==> pixels[b] == CircleByte(b)
    modifies pixels
    ensures forall b :: 0 <= b < PixelBytes && Written(b, x, y + 1) ==> pixels[b] == CircleByte(b)
    ensures forall b :: 0 <= b < PixelBytes && !(PixelIndex(x, y, 0) <= b < PixelIndex(x, y, 0) + 4) ==> pixels[b] == old(pixels[b])
  {
    var index := (x + y * Side) * 4;
    PixelIndexDecodes(x, y, 3);
    ghost var before := pixels[..];
    if (32 - x) * (32 - x) + (32 - y) * (32 - y) < 1024 {
      pixels[index + 0] := 255;
      pixels[index + 1] := 255;
      pixels[index + 2] := 255;
      pixels[index + 3] := 255;
    } else {
      pixels[index + 0] := 0;
      pixels[index + 1] := 0;
      pixels[index + 2] := 0;
      pixels[index + 3] := 0;
    }
    forall b | 0 <= b < PixelBytes && Written(b, x, y + 1)
      ensures pixels[b] == CircleByte(b)
    {
      SamePixel(b, x, y);
      if index <= b < index + 4 {
        assert PixelX(b) == x && PixelY(b) == y;
      } else {
        assert pixels[b] == before[b];
      }
    }
  }

  // ---------------------------------------------------------------------
  // The editor

  /** The viewport `on_mouse_up` passes to every entity's selection. */
  const MouseViewport := Rect(0.0, 0.0, 1000.0, 640.0)

  class MeshEditor {
    var entities: seq<Entity>
    var camera: Camera
    /** The projection the constructor builds; `Projector` stands for the
        projection, view and model-transform chain as one mapping. */
    var projection: Projector
    var billboard: Mesh
    /** The contents of the circle texture. */
    var circle: seq<Byte>

    /** The entities are distinct objects (the vector holds them by value)
        and each keeps one selection flag per vertex. */
    ghost predicate Valid()
      reads this, entities
    {
      && (forall i, j :: 0 <= i < j < |entities| ==> entities[i] != entities[j])
      && (forall i :: 0 <= i < |entities| ==> Aligned(entities[i].current))
    }

    /** One staircase entity at position (4, 4, 4), the camera moved back
        by 10 from the zero camera, the billboard mesh and the circle
        texture. `staircase` is what the model loader makes of the built-in
        staircase text, `moveBack` is the camera helper. */
    constructor (staircase: Model, projection: Projector, moveBack: (Camera, real) -> Camera)
      requires Aligned(staircase)
      ensures Valid()
      ensures |entities| == 1 && fresh(entities[0])
      ensures entities[0].current == staircase.(pos := Vec3(4.0, 4.0, 4.0))
      ensures entities[0].start == Model([], [], Zero3, Zero3, Zero3)
      ensures camera == moveBack(ZeroCamera, 10.0)
      ensures this.projection == projection
      ensures billboard == CreateBillboard()
      ensures circle == CircleImage()
    {
      var e := new Entity();
      e.Load(staircase);
      e.SetPosition(Vec3(4.0, 4.0, 4.0));
      entities := [e];
      this.projection := projection;
      camera := moveBack(ZeroCamera, 10.0);
      billboard := CreateBillboard();
      var pixels := new Byte[PixelBytes];
      FillCirclePixels(pixels);
      circle := pixels[..];
    }

    /** Stores the camera; `zoom` is ignored. */
    method SetCamera(zoom: real, x: real, y: real, z: real, yaw: real, pitch: real, roll: real)
      modifies this`camera
      ensures camera == Camera(x, y, z, pitch, yaw, roll)
    {
      camera := Camera(x, y, z, pitch, yaw, roll);
    }

    /** Appends one new entity holding `loaded`, what the model loader made
        of the given text; the existing entities are not touched. */
    method AddModel(loaded: Model)
      requires Valid() && Aligned(loaded)
      modifies this`entities
      ensures Valid()
      ensures |entities| == |old(entities)| + 1
      ensures entities[..|old(entities)|] == old(entities)
      ensures fresh(entities[|old(entities)|])
      ensures entities[|old(entities)|].current == loaded
      ensures entities[|old(entities)|].start == Model([], [], Zero3, Zero3, Zero3)
    {
      var e := new Entity();
      e.Load(loaded);
      entities := entities + [e];
      assert entities[..|old(entities)|] == old(entities);
    }

    /** Runs the rectangle selection on every entity with the editor's camera
        and projection and the fixed viewport {0, 0, 1000, 640}. */
    method OnMouseUp(x: int, y: int, x2: int, y2: int)
      requires Valid()
      modifies set i | 0 <= i < |entities| :: entities[i]
      ensures Valid()
      ensures forall i :: 0 <= i < |entities| ==>
                && entities[i].current == SelectedModel(old(entities[i].current), Selection(x, y, x2, y2), camera, projection, MouseViewport)
                && entities[i].start == old(entities[i].start)
    {
      var i := 0;
      while i < |entities|
        invariant 0 <= i <= |entities|
        invariant Valid()
        invariant forall n :: 0 <= n < i ==>
                    entities[n].current == SelectedModel(old(entities[n].current), Selection(x, y, x2, y2), camera, projection, MouseViewport)
        invariant forall n :: i <= n < |entities| ==> entities[n].current == old(entities[n].current)
        invariant forall n :: 0 <= n < |entities| ==> entities[n].start == old(entities[n].start)
      {
        entities[i].Select(Selection(x, y, x2, y2), camera, projection, MouseViewport);
        i := i + 1;
      }
    }

    /** Scales every vertex of every mesh of every entity by `factor`. */
    method ScaleAllEntities(factor: real)
      requires Valid()
      modifies set i | 0 <= i < |entities| :: entities[i]
      ensures Valid()
      ensures forall i :: 0 <= i < |entities| ==>
                && entities[i].current == ScaledModel(old(entities[i].current), factor)
                && entities[i].start == old(entities[i].start)
    {
      var i := 0;
      while i < |entities|
        invariant 0 <= i <= |entities|
        invariant Valid()
        invariant forall n :: 0 <= n < i ==> entities[n].current == ScaledModel(old(entities[n].current), factor)
        invariant forall n :: i <= n < |entities| ==> entities[n].current == old(entities[n].current)
        invariant forall n :: 0 <= n < |entities| ==> entities[n].start == old(entities[n].start)
      {
        ScaledModelFacts(entities[i].current, factor);
        entities[i].ScaleEntity(factor);
        i := i + 1;
      }
    }
  }
}

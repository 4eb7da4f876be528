/**
 * One frame's tracking output and its conversion into a capture record:
 * `getFrameData` (FaceDataRecorder/ViewController.swift:186-210), whose
 * `vertices.map` turns every mesh vertex into a texture coordinate.
 */
module Geometry {
  import opened Wrappers

  datatype Vec3 = Vec3(x: real, y: real, z: real)
  datatype Vec4 = Vec4(x: real, y: real, z: real, w: real)

  /** A 4x4 matrix given by its columns, as `simd_float4x4` stores it. */
  datatype Mat4 = Mat4(c0: Vec4, c1: Vec4, c2: Vec4, c3: Vec4)

  /** A point in viewport pixels, what `projectPoint` returns. */
  datatype Point2 = Point2(x: real, y: real)

  /** A texture coordinate, `vector_float2(u, v)`. */
  datatype Uv = Uv(u: real, v: real)

  datatype Size = Size(width: real, height: real)

  predicate PositiveSize(s: Size) { s.width > 0.0 && s.height > 0.0 }

  /**
   * The camera of one frame. `project` stands for `projectPoint(_:orientation:
   * viewportSize:)` with the portrait orientation: a world point and a viewport
   * size go to a point in viewport pixels. It is left uninterpreted.
   */
  datatype Camera = Camera(transform: Mat4, imageResolution: Size, project: (Vec3, Size) -> Point2)

  datatype Anchor =
    | FaceAnchor(transform: Mat4, vertices: seq<Vec3>, blendShapes: map<string, real>)
    | OtherAnchor(transform: Mat4)

  datatype Frame = Frame(anchors: seq<Anchor>, camera: Camera)

  /** The record of one sampled frame (`CaptureData`). */
  datatype CaptureData = CaptureData(
    vertices: seq<Vec3>,
    camTransform: Mat4,
    faceTransform: Mat4,
    blendShapes: map<string, real>,
    uvs: seq<Uv>)

  /** `simd_mul(modelMatrix, (x, y, z, 1))` with its fourth component dropped. */
  function ToWorld(m: Mat4, p: Vec3): Vec3
  {
    Vec3(
      m.c0.x * p.x + m.c1.x * p.y + m.c2.x * p.z + m.c3.x,
      m.c0.y * p.x + m.c1.y * p.y + m.c2.y * p.z + m.c3.y,
      m.c0.z * p.x + m.c1.z * p.y + m.c2.z * p.z + m.c3.z)
  }

  /** The viewport passed to the projection: the image resolution with width and height swapped. */
  function PortraitViewport(resolution: Size): (vp: Size)
    ensures vp.width == resolution.height && vp.height == resolution.width
  {
    Size(resolution.height, resolution.width)
  }

  /** Where the vertex lands in the portrait viewport. */
  function Projected(camera: Camera, model: Mat4, vertex: Vec3): Point2
  {
    camera.project(ToWorld(model, vertex), PortraitViewport(camera.imageResolution))
  }

  /** The texture coordinate of one vertex: the projected point's axes swapped and each normalised. */
  function UvOf(camera: Camera, model: Mat4, vertex: Vec3): Uv
    requires PositiveSize(camera.imageResolution)
  {
    var size := camera.imageResolution;
    var pt := Projected(camera, model, vertex);
    Uv(pt.y / size.width, pt.x / size.height)
  }

  /** `vertices.map { ... }`: one texture coordinate per vertex, in vertex order. */
  function TextureCoordinates(camera: Camera, model: Mat4, vertices: seq<Vec3>): (uvs: seq<Uv>)
    requires PositiveSize(camera.imageResolution)
    ensures |uvs| == |vertices|
    ensures forall i :: 0 <= i < |vertices| ==> uvs[i] == UvOf(camera, model, vertices[i])
  {
    if vertices == [] then []
    else [UvOf(camera, model, vertices[0])] + TextureCoordinates(camera, model, vertices[1..])
  }

  /**
   * The swap of axes and viewport: `u` scaled by the image width gives back the
   * projected y, `v` scaled by the image height gives back the projected x.
   */
  lemma UvSwapsAxes(camera: Camera, model: Mat4, vertex: Vec3)
    requires PositiveSize(camera.imageResolution)
    ensures var size := camera.imageResolution;
      var pt := Projected(camera, model, vertex);
      var uv := UvOf(camera, model, vertex);
      uv.u * size.width == pt.y && uv.v * size.height == pt.x
  {
  }

  /**
   * A texture coordinate lies in the unit square exactly when its vertex projects
   * inside the portrait viewport; points outside it are neither clamped nor dropped.
   */
  lemma UvInUnitSquareIff(camera: Camera, model: Mat4, vertex: Vec3)
    requires PositiveSize(camera.imageResolution)
    ensures var vp := PortraitViewport(camera.imageResolution);
      var pt := Projected(camera, model, vertex);
      var uv := UvOf(camera, model, vertex);
      (0.0 <= uv.u <= 1.0 && 0.0 <= uv.v <= 1.0)
        <==> (0.0 <= pt.x <= vp.width && 0.0 <= pt.y <= vp.height)
  {
    var size := camera.imageResolution;
    var pt := Projected(camera, model, vertex);
    UvSwapsAxes(camera, model, vertex);
    DivisionInUnitRange(pt.y, size.width);
    DivisionInUnitRange(pt.x, size.height);
  }

  lemma DivisionInUnitRange(a: real, b: real)
    requires b > 0.0
    ensures 0.0 <= a / b <= 1.0 <==> 0.0 <= a <= b
  {
    assert (a / b) * b == a;
    if 0.0 <= a / b <= 1.0 {
      assert 0.0 <= (a / b) * b <= b;
    }
  }

  /** The map neither reorders nor filters: coordinates of a concatenation are the concatenation. */
  lemma {:induction false} TextureCoordinatesAppend(camera: Camera, model: Mat4, a: seq<Vec3>, b: seq<Vec3>)
    requires PositiveSize(camera.imageResolution)
    ensures TextureCoordinates(camera, model, a + b)
      == TextureCoordinates(camera, model, a) + TextureCoordinates(camera, model, b)
  {
    var l := TextureCoordinates(camera, model, a + b);
    var r := TextureCoordinates(camera, model, a) + TextureCoordinates(camera, model, b);
    assert |l| == |r|;
    forall i | 0 <= i < |l| ensures l[i] == r[i] {
      if i < |a| {
        assert (a + b)[i] == a[i];
      } else {
        assert (a + b)[i] == b[i - |a|];
      }
    }
  }

  /**
   * `getFrameData`: the record built from the first anchor when it is a face
   * anchor, nothing otherwise. The source indexes `anchors[0]` unguarded.
   */
  function GetFrameData(frame: Frame): (r: Option<CaptureData>)
    requires |frame.anchors| > 0
    requires PositiveSize(frame.camera.imageResolution)
    ensures r.None? <==> !frame.anchors[0].FaceAnchor?
    ensures r.Some? ==> var anchor := frame.anchors[0];
      && r.value.vertices == anchor.vertices
      && r.value.faceTransform == anchor.transform
      && r.value.blendShapes == anchor.blendShapes
      && r.value.camTransform == frame.camera.transform
      && |r.value.uvs| == |r.value.vertices|
      && (forall i :: 0 <= i < |r.value.uvs| ==>
            r.value.uvs[i] == UvOf(frame.camera, anchor.transform, anchor.vertices[i]))
  {
    match frame.anchors[0]
    case OtherAnchor(_) => None
    case FaceAnchor(model, vertices, blendShapes) =>
      Some(CaptureData(vertices, frame.camera.transform, model, blendShapes,
                       TextureCoordinates(frame.camera, model, vertices)))
  }
}

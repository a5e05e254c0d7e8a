/** BoundaryController: builds the pyramid-shaped collider whose apex is the
    camera and whose four side walls pass through the corners of the bounded
    input rectangle, so that a dragged die cannot leave the play area. */
module Boundary {
  import opened Geometry
  import opened Viewport

  /** A Mesh. Assigning vertices or triangles copies the arrays in, so both are
      sequences here. */
  class Mesh {
    var vertices: seq<Vec3>
    var triangles: seq<int>

    constructor ()
      ensures vertices == [] && triangles == []
    {
      vertices := [];
      triangles := [];
    }
  }

  class MeshFilter {
    var sharedMesh: Mesh?

    constructor ()
      ensures sharedMesh == null
    {
      sharedMesh := null;
    }
  }

  class MeshCollider {
    var sharedMesh: Mesh?

    constructor ()
      ensures sharedMesh == null
    {
      sharedMesh := null;
    }
  }

  /** Index of the camera apex in the vertex list. */
  const Apex: int := 0

  /** Length of each camera-to-corner edge of the pyramid. */
  const CornerDistance: real := 40.0

  /** The index list of the four side walls, one triangle per rectangle edge. */
  const WallTriangles: seq<int> := [1, 0, 2,
                                    2, 0, 3,
                                    3, 0, 4,
                                    4, 0, 1]

  /** The three vertex indices of triangle t. */
  function Triangle(triangles: seq<int>, t: nat): seq<int>
    requires 3 * t + 3 <= |triangles|
  {
    triangles[3 * t .. 3 * t + 3]
  }

  /** How many of the first k triangles of the list use both vertex a and vertex b. */
  function EdgeCount(triangles: seq<int>, a: int, b: int, k: nat): nat
    requires 3 * k <= |triangles|
  {
    if k == 0 then 0
    else EdgeCount(triangles, a, b, k - 1) + (if a in Triangle(triangles, k - 1) && b in Triangle(triangles, k - 1) then 1 else 0)
  }

  /** The four triangles of the wall list, one by one. */
  lemma WallTriangleValues()
    ensures Triangle(WallTriangles, 0) == [1, 0, 2] && Triangle(WallTriangles, 1) == [2, 0, 3]
    ensures Triangle(WallTriangles, 2) == [3, 0, 4] && Triangle(WallTriangles, 3) == [4, 0, 1]
  {
  }

  /** The four wall triangles form a fan around the apex: triangle t joins
      corner vertex t + 1, the apex and the next corner vertex round, and every
      index is a vertex of the five-vertex mesh. */
  lemma WallTrianglesFormFan()
    ensures |WallTriangles| == 12
    ensures forall i :: 0 <= i < |WallTriangles| ==> 0 <= WallTriangles[i] < 5
    ensures forall t :: 0 <= t < 4 ==> Triangle(WallTriangles, t) == [t + 1, Apex, (t + 1) % 4 + 1]
  {
    WallTriangleValues();
  }

  /** The corner pair (c, c % 4 + 1) is an edge of exactly one wall. */
  lemma WallEdgeOnce(c: int)
    requires 1 <= c <= 4
    ensures EdgeCount(WallTriangles, c, c % 4 + 1, 4) == 1
  {
    var w := WallTriangles;
    WallTriangleValues();
    if c == 1 {
      assert EdgeCount(w, 1, 2, 4) == 1;
    } else if c == 2 {
      assert EdgeCount(w, 2, 3, 4) == 1;
    } else if c == 3 {
      assert EdgeCount(w, 3, 4, 4) == 1;
    } else {
      assert EdgeCount(w, 4, 1, 4) == 1;
    }
  }

  /** The fan closes on itself: each of the corner pairs (1,2), (2,3), (3,4)
      and (4,1) is an edge of exactly one wall. */
  lemma WallFanIsClosed()
    ensures forall c :: 1 <= c <= 4 ==> EdgeCount(WallTriangles, c, c % 4 + 1, 4) == 1
  {
    forall c | 1 <= c <= 4
      ensures EdgeCount(WallTriangles, c, c % 4 + 1, 4) == 1
    {
      WallEdgeOnce(c);
    }
  }

  /** The corners of the rectangle in screen space at depth 1, in the order
      left-down, left-up, right-up, right-down: each is the named corner of
      the rectangle, so going round them in order (and back to the first)
      follows the left, top, right and bottom sides. */
  function ScreenCorners(r: Rect): (c: seq<Vec3>)
    ensures |c| == 4
    ensures forall i :: 0 <= i < |c| ==>
      && c[i].z == 1.0
      && (c[i].x == r.width.min || c[i].x == r.width.max)
      && (c[i].y == r.height.min || c[i].y == r.height.max)
    ensures OnOneSide(r, c[0], c[1]) && OnOneSide(r, c[1], c[2])
    ensures OnOneSide(r, c[2], c[3]) && OnOneSide(r, c[3], c[0])
    ensures c[0].x == c[1].x == r.width.min && c[2].x == c[3].x == r.width.max
    ensures c[0].y == c[3].y == r.height.min && c[1].y == c[2].y == r.height.max
  {
    [Vec3(r.width.min, r.height.min, 1.0),
     Vec3(r.width.min, r.height.max, 1.0),
     Vec3(r.width.max, r.height.max, 1.0),
     Vec3(r.width.max, r.height.min, 1.0)]
  }

  /** a and b are the two ends of one side of the rectangle. */
  predicate OnOneSide(r: Rect, a: Vec3, b: Vec3) {
    || (a.x == b.x && (a.x == r.width.min || a.x == r.width.max))
    || (a.y == b.y && (a.y == r.height.min || a.y == r.height.max))
  }

  /** Each wall runs along one side of the rectangle: the two corner vertices
      of every wall triangle (vertex k is corner k - 1) are the ends of one
      side; with the corners named as in ScreenCorners, the four walls run
      along the left, top, right and bottom sides in turn. */
  lemma WallsFollowRectangleSides(r: Rect)
    ensures forall t :: 0 <= t < 4 ==>
      OnOneSide(r, ScreenCorners(r)[Triangle(WallTriangles, t)[0] - 1], ScreenCorners(r)[Triangle(WallTriangles, t)[2] - 1])
  {
    WallTrianglesFormFan();
  }

  /** A normals array of `count` entries, each Vector3.forward. */
  method ForwardNormals(count: nat) returns (normals: array<Vec3>)
    ensures normals.Length == count
    ensures forall i :: 0 <= i < count ==> normals[i] == Forward
  {
    normals := new Vec3[count];
    var i := 0;
    while i < count
      invariant 0 <= i <= count
      invariant forall j :: 0 <= j < i ==> normals[j] == Forward
    {
      normals[i] := Forward;
      i := i + 1;
    }
  }

  class BoundaryController {
    var camera: Camera
    var meshFilter: MeshFilter
    var meshCollider: MeshCollider
    var widthPercentage: real
    var heightPercentage: real

    constructor (camera: Camera, meshFilter: MeshFilter, meshCollider: MeshCollider,
                 widthPercentage: real, heightPercentage: real)
      ensures this.camera == camera && this.meshFilter == meshFilter && this.meshCollider == meshCollider
      ensures this.widthPercentage == widthPercentage && this.heightPercentage == heightPercentage
    {
      this.camera := camera;
      this.meshFilter := meshFilter;
      this.meshCollider := meshCollider;
      this.widthPercentage := widthPercentage;
      this.heightPercentage := heightPercentage;
    }

    /** CameraVector: the direction from the camera to the world point under a
        screen position, scaled to CornerDistance. `normalize` is the engine's
        Vector3.normalized. The result is parallel to the normalised
        direction and points the same way, and when that has unit length
        the result has length CornerDistance. */
    function CameraVector(normalize: Vec3 -> Vec3, screenPosition: Vec3): (v: Vec3)
      reads this
      ensures var d := normalize(Sub(camera.screenToWorld(screenPosition), camera.position));
              && Cross(v, d) == Zero
              && Dot(v, d) == CornerDistance * Dot(d, d)
              && (Dot(d, d) == 1.0 ==> Dot(v, v) == CornerDistance * CornerDistance)
    {
      Scale(CornerDistance, normalize(Sub(camera.screenToWorld(screenPosition), camera.position)))
    }

    /** Builds a fresh mesh holding the camera apex and the four corner
        vertices, with the wall fan as its triangles, and hands that same mesh
        to both the filter and the collider, replacing what they held. */
    method MakeAreaCollider(normalize: Vec3 -> Vec3)
      modifies meshFilter`sharedMesh, meshCollider`sharedMesh
      ensures meshFilter.sharedMesh != null && fresh(meshFilter.sharedMesh)
      ensures meshCollider.sharedMesh == meshFilter.sharedMesh
      ensures var mesh := meshFilter.sharedMesh;
              var corners := ScreenCorners(Bounds(camera, widthPercentage, heightPercentage));
              && |mesh.vertices| == 5
              && mesh.vertices[Apex] == camera.position
              && (forall i :: 0 <= i < 4 ==> mesh.vertices[i + 1] == Add(camera.position, CameraVector(normalize, corners[i])))
              && mesh.triangles == WallTriangles
    {
      var rect := Bounds(camera, widthPercentage, heightPercentage);
      var corners := ScreenCorners(rect);
      var cornerLeftDown := CameraVector(normalize, corners[0]);
      var cornerLeftUp := CameraVector(normalize, corners[1]);
      var cornerRightUp := CameraVector(normalize, corners[2]);
      var cornerRightDown := CameraVector(normalize, corners[3]);

      var mesh := new Mesh();
      var cameraPosition := camera.position;
      var vertices := [cameraPosition,
                       Add(cameraPosition, cornerLeftDown),
                       Add(cameraPosition, cornerLeftUp),
                       Add(cameraPosition, cornerRightUp),
                       Add(cameraPosition, cornerRightDown)];
      // Filled as in the source but never attached to the mesh.
      var normals := ForwardNormals(|vertices|);

      mesh.vertices := vertices;
      mesh.triangles := WallTriangles;
      meshFilter.sharedMesh := mesh;
      meshCollider.sharedMesh := mesh;
    }
  }
}

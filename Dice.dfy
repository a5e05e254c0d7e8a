/** DiceController: extracts the scoreable sides of a die from its mesh and
    reads the rolled value off the side that points most nearly up.

    The C# Dictionary that groups vertices by normal is a map together with
    the sequence of its keys; the keys are enumerated in first-insertion
    order. C# does not promise that order, so it is an assumption of this
    model, and the numbering of the sides depends on it. */
module Dice {
  import opened Geometry

  /** A scoreable side: its outward normal in the die's own frame and the
      value it scores. */
  datatype DiceSide = DiceSide(normal: Vec3, result: int)

  /** The parallel vertex and normal arrays of a mesh. */
  datatype MeshData = MeshData(vertices: seq<Vec3>, normals: seq<Vec3>)

  /** The starting angle of the closest-side search, larger than any angle. */
  const SentinelAngle: real := 200.0

  predicate Distinct(s: seq<Vec3>) {
    forall i, j :: 0 <= i < j < |s| ==> s[i] != s[j]
  }

  // ---------------------------------------------------------------------
  // Grouping vertices by normal

  /** The distinct normals among the first n, in order of first occurrence:
      the keys of the grouping dictionary in enumeration order. Normals are
      compared by exact equality. */
  function FirstOccurrences(normals: seq<Vec3>, n: nat): (keys: seq<Vec3>)
    requires n <= |normals|
    ensures Distinct(keys)
    ensures forall k :: k in keys <==> k in normals[..n]
  {
    if n == 0 then []
    else
      var keys := FirstOccurrences(normals, n - 1);
      if normals[n - 1] in keys then keys else keys + [normals[n - 1]]
  }

  lemma FirstOccurrencesStep(normals: seq<Vec3>, n: nat)
    requires 0 < n <= |normals|
    ensures var keys := FirstOccurrences(normals, n - 1);
            FirstOccurrences(normals, n) == if normals[n - 1] in keys then keys else keys + [normals[n - 1]]
  {
  }

  /** The indices below n whose normal is `key`, in increasing order. */
  function IndicesWith(normals: seq<Vec3>, n: nat, key: Vec3): (r: seq<nat>)
    requires n <= |normals|
    ensures forall j :: 0 <= j < |r| ==> r[j] < n && normals[r[j]] == key
  {
    if n == 0 then []
    else IndicesWith(normals, n - 1, key) + (if normals[n - 1] == key then [n - 1] else [])
  }

  /** Every index below n whose normal is `key` is listed, in vertex-stream
      order. */
  lemma {:induction false} IndicesWithComplete(normals: seq<Vec3>, n: nat, key: Vec3)
    requires n <= |normals|
    ensures forall i :: 0 <= i < n && normals[i] == key ==> i in IndicesWith(normals, n, key)
    ensures forall j, l :: 0 <= j < l < |IndicesWith(normals, n, key)| ==>
      IndicesWith(normals, n, key)[j] < IndicesWith(normals, n, key)[l]
  {
    if n > 0 {
      IndicesWithComplete(normals, n - 1, key);
    }
  }

  /** A normal that does not occur among the first n has an empty group. */
  lemma {:induction false} IndicesWithAbsent(normals: seq<Vec3>, n: nat, key: Vec3)
    requires n <= |normals|
    requires key !in normals[..n]
    ensures IndicesWith(normals, n, key) == []
  {
    if n > 0 {
      assert normals[n - 1] in normals[..n];
      assert normals[..n - 1] == normals[..n][..n - 1];
      IndicesWithAbsent(normals, n - 1, key);
    }
  }

  /** The vertices at the given indices, in that order. */
  function Gather(vertices: seq<Vec3>, indices: seq<nat>): (r: seq<Vec3>)
    requires forall j :: 0 <= j < |indices| ==> indices[j] < |vertices|
    ensures |r| == |indices|
  {
    seq(|indices|, j requires 0 <= j < |indices| => vertices[indices[j]])
  }

  /** The vertex list the dictionary holds under `key` after n vertices. */
  function GroupOf(mesh: MeshData, n: nat, key: Vec3): seq<Vec3>
    requires n <= |mesh.vertices| && n <= |mesh.normals|
  {
    Gather(mesh.vertices, IndicesWith(mesh.normals, n, key))
  }

  lemma GroupOfStep(mesh: MeshData, n: nat, key: Vec3)
    requires n < |mesh.vertices| && n < |mesh.normals|
    ensures GroupOf(mesh, n + 1, key)
         == GroupOf(mesh, n, key) + (if mesh.normals[n] == key then [mesh.vertices[n]] else [])
  {
    var before := IndicesWith(mesh.normals, n, key);
    if mesh.normals[n] == key {
      assert IndicesWith(mesh.normals, n + 1, key) == before + [n];
    } else {
      assert IndicesWith(mesh.normals, n + 1, key) == before;
    }
  }

  /** Every vertex index lies in exactly one group: the one keyed by its own
      normal, which is a key of the dictionary. */
  lemma VertexInExactlyOneGroup(normals: seq<Vec3>, n: nat, i: nat)
    requires i < n <= |normals|
    ensures normals[i] in FirstOccurrences(normals, n)
    ensures i in IndicesWith(normals, n, normals[i])
    ensures forall key :: i in IndicesWith(normals, n, key) ==> key == normals[i]
  {
    IndicesWithComplete(normals, n, normals[i]);
    assert normals[i] in normals[..n];
    forall key | i in IndicesWith(normals, n, key)
      ensures key == normals[i]
    {
      var r := IndicesWith(normals, n, key);
      var j :| 0 <= j < |r| && r[j] == i;
    }
  }

  /** The sum of the group sizes of the given keys. */
  function GroupSizes(normals: seq<Vec3>, n: nat, keys: seq<Vec3>): nat
    requires n <= |normals|
  {
    if keys == [] then 0
    else GroupSizes(normals, n, keys[..|keys| - 1]) + |IndicesWith(normals, n, keys[|keys| - 1])|
  }

  lemma {:induction false} GroupSizesStep(normals: seq<Vec3>, n: nat, keys: seq<Vec3>)
    requires n < |normals|
    requires Distinct(keys)
    ensures GroupSizes(normals, n + 1, keys) == GroupSizes(normals, n, keys) + (if normals[n] in keys then 1 else 0)
  {
    if keys != [] {
      var front, last := keys[..|keys| - 1], keys[|keys| - 1];
      assert keys == front + [last];
      assert Distinct(front);
      GroupSizesStep(normals, n, front);
      if normals[n] == last {
        assert IndicesWith(normals, n + 1, last) == IndicesWith(normals, n, last) + [n];
        assert normals[n] !in front;
      } else {
        assert IndicesWith(normals, n + 1, last) == IndicesWith(normals, n, last);
      }
    }
  }

  lemma GroupSizesAppend(normals: seq<Vec3>, n: nat, keys: seq<Vec3>, key: Vec3)
    requires n <= |normals|
    ensures GroupSizes(normals, n, keys + [key]) == GroupSizes(normals, n, keys) + |IndicesWith(normals, n, key)|
  {
    assert (keys + [key])[..|keys|] == keys;
  }

  /** A normal seen for the first time at index n - 1 has that index alone as its group. */
  lemma NewKeyHasSingletonGroup(normals: seq<Vec3>, n: nat)
    requires 0 < n <= |normals|
    requires normals[n - 1] !in FirstOccurrences(normals, n - 1)
    ensures IndicesWith(normals, n, normals[n - 1]) == [n - 1]
  {
    var x := normals[n - 1];
    IndicesWithAbsent(normals, n - 1, x);
    assert IndicesWith(normals, n, x) == IndicesWith(normals, n - 1, x) + [n - 1];
  }

  /** The groups partition the vertex stream: their sizes add up to the
      number of vertices. */
  lemma {:induction false} GroupSizesSumToVertexCount(normals: seq<Vec3>, n: nat)
    requires n <= |normals|
    ensures GroupSizes(normals, n, FirstOccurrences(normals, n)) == n
  {
    if n > 0 {
      var m: nat := n - 1;
      var keys := FirstOccurrences(normals, m);
      GroupSizesSumToVertexCount(normals, m);
      GroupSizesStep(normals, m, keys);
      var x := normals[m];
      FirstOccurrencesStep(normals, n);
      if x in keys {
        assert FirstOccurrences(normals, n) == keys;
      } else {
        NewKeyHasSingletonGroup(normals, n);
        GroupSizesAppend(normals, n, keys, x);
        assert FirstOccurrences(normals, n) == keys + [x];
      }
    }
  }

  /** The dictionary after n vertices: its keys in enumeration order are the
      normals in order of first occurrence, and each key holds its group. */
  ghost predicate Grouped(mesh: MeshData, n: nat, keys: seq<Vec3>, groups: map<Vec3, seq<Vec3>>)
    requires n <= |mesh.vertices| <= |mesh.normals|
  {
    && keys == FirstOccurrences(mesh.normals, n)
    && (forall key :: key in groups <==> key in keys)
    && (forall key :: key in groups ==> groups[key] == GroupOf(mesh, n, key))
  }

  /** One step of the grouping loop keeps the dictionary in step with the
      vertices read so far. */
  lemma GroupingStep(mesh: MeshData, n: nat, keys: seq<Vec3>, groups: map<Vec3, seq<Vec3>>,
                     keys': seq<Vec3>, groups': map<Vec3, seq<Vec3>>)
    requires n < |mesh.vertices| <= |mesh.normals|
    requires Grouped(mesh, n, keys, groups)
    requires var normal := mesh.normals[n];
             && keys' == (if normal in groups then keys else keys + [normal])
             && groups' == groups[normal := (if normal in groups then groups[normal] else []) + [mesh.vertices[n]]]
    ensures Grouped(mesh, n + 1, keys', groups')
  {
    var normal := mesh.normals[n];
    FirstOccurrencesStep(mesh.normals, n + 1);
    if normal !in groups {
      IndicesWithAbsent(mesh.normals, n, normal);
    }
    forall key | key in groups'
      ensures groups'[key] == GroupOf(mesh, n + 1, key)
    {
      GroupOfStep(mesh, n, key);
    }
  }

  /** The grouping loop: walks the vertex and normal arrays in step and
      appends each vertex to the list keyed by its normal, adding the key the
      first time that normal is seen. */
  method GroupByNormal(mesh: MeshData) returns (keys: seq<Vec3>, groups: map<Vec3, seq<Vec3>>)
    requires |mesh.vertices| <= |mesh.normals|
    ensures keys == FirstOccurrences(mesh.normals, |mesh.vertices|)
    ensures forall key :: key in groups <==> key in keys
    ensures forall key :: key in groups ==> groups[key] == GroupOf(mesh, |mesh.vertices|, key)
  {
    keys, groups := [], map[];
    var index := 0;
    while index < |mesh.vertices|
      invariant 0 <= index <= |mesh.vertices|
      invariant Grouped(mesh, index, keys, groups)
    {
      ghost var keys0, groups0 := keys, groups;
      var vertex := mesh.vertices[index];
      var normal := mesh.normals[index];
      if normal !in groups {
        groups := groups[normal := []];
        keys := keys + [normal];
      }
      groups := groups[normal := groups[normal] + [vertex]];
      GroupingStep(mesh, index, keys0, groups0, keys, groups);
      index := index + 1;
    }
  }

  // ---------------------------------------------------------------------
  // Surface area of a group

  /** The area of triangle (o, a, b): half the magnitude of the cross product
      of o - a and o - b. `magnitude` is the engine's Vector3.magnitude. */
  function TriangleArea(magnitude: Vec3 -> NonNegReal, o: Vec3, a: Vec3, b: Vec3): (area: real)
    ensures area >= 0.0
    ensures magnitude(Zero) == 0.0 && (a == o || b == o || a == b) ==> area == 0.0
  {
    assert (a == o || b == o || a == b) ==> Cross(Sub(o, a), Sub(o, b)) == Zero by {
      if a == b { assert Sub(o, a) == Sub(o, b); }
    }
    magnitude(Cross(Sub(o, a), Sub(o, b))) / 2.0
  }

  /** The fan triangulation from the first vertex, triangles 1 .. k - 1:
      the sum of TriangleArea(vs[0], vs[i], vs[i + 1]) for 1 <= i < k. */
  function FanArea(magnitude: Vec3 -> NonNegReal, vs: seq<Vec3>, k: nat): (area: real)
    requires 1 <= k < |vs|
    ensures area >= 0.0
  {
    if k == 1 then 0.0
    else FanArea(magnitude, vs, k - 1) + TriangleArea(magnitude, vs[0], vs[k - 1], vs[k])
  }

  /** The surface of a group: zero for fewer than two vertices, otherwise the
      fan sum over all of them (which is zero for exactly two). */
  function SurfaceArea(magnitude: Vec3 -> NonNegReal, vs: seq<Vec3>): (area: real)
    ensures area >= 0.0
    ensures |vs| <= 2 ==> area == 0.0
  {
    if |vs| < 2 then 0.0 else FanArea(magnitude, vs, |vs| - 1)
  }

  /** TryCalculateSurfaceArea: fails with 0 for fewer than two vertices and
      otherwise accumulates the fan triangle areas. */
  method TryCalculateSurfaceArea(vertexes: seq<Vec3>, magnitude: Vec3 -> NonNegReal)
    returns (ok: bool, calculatedSurface: real)
    ensures ok <==> |vertexes| >= 2
    ensures !ok ==> calculatedSurface == 0.0
    ensures calculatedSurface == SurfaceArea(magnitude, vertexes)
    ensures calculatedSurface >= 0.0
  {
    if |vertexes| < 2 {
      return false, 0.0;
    }
    var area := 0.0;
    var origin := vertexes[0];
    var i := 1;
    while i < |vertexes| - 1
      invariant 1 <= i <= |vertexes| - 1
      invariant area == FanArea(magnitude, vertexes, i)
    {
      var current := vertexes[i];
      var next := vertexes[i + 1];
      area := area + TriangleArea(magnitude, origin, current, next);
      i := i + 1;
    }
    return true, area;
  }

  /** A group becomes a side when its area can be computed and is strictly
      greater than the minimum surface area. */
  predicate IsFace(magnitude: Vec3 -> NonNegReal, minimumFaceSurfaceArea: real, group: seq<Vec3>) {
    |group| >= 2 && SurfaceArea(magnitude, group) > minimumFaceSurfaceArea
  }

  /** The keys whose groups become sides, in key order. */
  function KeptNormals(mesh: MeshData, magnitude: Vec3 -> NonNegReal, minimumFaceSurfaceArea: real, keys: seq<Vec3>)
    : (kept: seq<Vec3>)
    requires |mesh.vertices| <= |mesh.normals|
    ensures |kept| <= |keys|
  {
    if keys == [] then []
    else
      var kept := KeptNormals(mesh, magnitude, minimumFaceSurfaceArea, keys[..|keys| - 1]);
      var last := keys[|keys| - 1];
      if IsFace(magnitude, minimumFaceSurfaceArea, GroupOf(mesh, |mesh.vertices|, last)) then kept + [last] else kept
  }

  /** A key is kept exactly when its group is a face, and kept keys stay
      distinct. */
  lemma {:induction false} KeptNormalsAreTheFaces(mesh: MeshData, magnitude: Vec3 -> NonNegReal,
                                                  minimumFaceSurfaceArea: real, keys: seq<Vec3>)
    requires |mesh.vertices| <= |mesh.normals|
    ensures var kept := KeptNormals(mesh, magnitude, minimumFaceSurfaceArea, keys);
            && (forall key :: key in kept <==>
                  key in keys && IsFace(magnitude, minimumFaceSurfaceArea, GroupOf(mesh, |mesh.vertices|, key)))
            && (Distinct(keys) ==> Distinct(kept))
  {
    if keys != [] {
      var front := keys[..|keys| - 1];
      var last := keys[|keys| - 1];
      assert keys == front + [last];
      assert Distinct(keys) ==> Distinct(front) && last !in front;
      KeptNormalsAreTheFaces(mesh, magnitude, minimumFaceSurfaceArea, front);
    }
  }

  lemma KeptNormalsStep(mesh: MeshData, magnitude: Vec3 -> NonNegReal, minimumFaceSurfaceArea: real,
                        keys: seq<Vec3>, j: nat)
    requires |mesh.vertices| <= |mesh.normals|
    requires j < |keys|
    ensures KeptNormals(mesh, magnitude, minimumFaceSurfaceArea, keys[..j + 1])
         == KeptNormals(mesh, magnitude, minimumFaceSurfaceArea, keys[..j])
            + (if IsFace(magnitude, minimumFaceSurfaceArea, GroupOf(mesh, |mesh.vertices|, keys[j])) then [keys[j]] else [])
  {
    assert keys[..j + 1][..j] == keys[..j];
  }

  /** The side list numbers the given normals 1, 2, 3, ... in order. */
  ghost predicate NumberedInOrder(sides: seq<DiceSide>, normals: seq<Vec3>) {
    && |sides| == |normals|
    && forall i :: 0 <= i < |sides| ==> sides[i] == DiceSide(normals[i], i + 1)
  }

  lemma NumberedInOrderAppend(sides: seq<DiceSide>, normals: seq<Vec3>, normal: Vec3)
    requires NumberedInOrder(sides, normals)
    ensures NumberedInOrder(sides + [DiceSide(normal, |sides| + 1)], normals + [normal])
  {
  }

  // ---------------------------------------------------------------------
  // Reading the result

  /** The angle between a side's normal, turned into world space by
      `toWorld` (the die's TransformDirection), and world up; `angle` is
      Vector3.Angle. */
  function AngleToUp(toWorld: Vec3 -> Vec3, angle: (Vec3, Vec3) -> Degrees, side: DiceSide): real {
    Abs(angle(toWorld(side.normal), Up))
  }

  /** Side k points most nearly up, and every earlier side points strictly
      further away from up. */
  ghost predicate IsFirstClosest(sides: seq<DiceSide>, toWorld: Vec3 -> Vec3, angle: (Vec3, Vec3) -> Degrees, k: int) {
    && 0 <= k < |sides|
    && (forall j :: 0 <= j < |sides| ==> AngleToUp(toWorld, angle, sides[k]) <= AngleToUp(toWorld, angle, sides[j]))
    && (forall j :: 0 <= j < k ==> AngleToUp(toWorld, angle, sides[j]) > AngleToUp(toWorld, angle, sides[k]))
  }

  /** The closest side is determined uniquely, so reading the result twice
      for the same orientation gives the same value. */
  lemma FirstClosestIsUnique(sides: seq<DiceSide>, toWorld: Vec3 -> Vec3, angle: (Vec3, Vec3) -> Degrees, k1: int, k2: int)
    requires IsFirstClosest(sides, toWorld, angle, k1)
    requires IsFirstClosest(sides, toWorld, angle, k2)
    ensures k1 == k2
  {
    var a1, a2 := AngleToUp(toWorld, angle, sides[k1]), AngleToUp(toWorld, angle, sides[k2]);
    assert a1 <= a2 && a2 <= a1;
    // An earlier one of the two would be strictly further from up than the other.
    assert !(k1 < k2) && !(k2 < k1);
  }

  class DiceController {
    /** The scoreable sides (the _diceSides list). */
    var sides: seq<DiceSide>
    var minimumFaceSurfaceArea: real
    var rollFinishHeight: real
    var rollFinishVelocity: real
    /** The rigid body's velocity and the die's position, written by the physics engine. */
    var velocity: Vec3
    var position: Vec3

    constructor (velocity: Vec3, position: Vec3)
      ensures sides == []
      ensures minimumFaceSurfaceArea == 1.0 && rollFinishHeight == 2.03 && rollFinishVelocity == 0.02
      ensures this.velocity == velocity && this.position == position
    {
      sides := [];
      minimumFaceSurfaceArea := 1.0;
      rollFinishHeight := 2.03;
      rollFinishVelocity := 0.02;
      this.velocity := velocity;
      this.position := position;
    }

    /** Throws the previous sides away. */
    method ClearSides()
      modifies this`sides
      ensures sides == []
    {
      sides := [];
    }

    /** Appends a side with the given normal and value. */
    method CreateSide(normal: Vec3, result: int)
      modifies this`sides
      ensures sides == old(sides) + [DiceSide(normal, result)]
    {
      sides := sides + [DiceSide(normal, result)];
    }

    /** Rebuilds the sides from a mesh: the groups whose area exceeds the
        minimum, numbered 1, 2, 3, ... in key order. When the normal array is
        shorter than the vertex array the source fails with an index error
        after the old sides are cleared; then `completed` is false and no
        side is left. */
    method GetSidesFromMesh(mesh: MeshData, magnitude: Vec3 -> NonNegReal) returns (completed: bool)
      modifies this`sides
      ensures completed <==> |mesh.vertices| <= |mesh.normals|
      ensures !completed ==> sides == []
      ensures completed ==>
        var kept := KeptNormals(mesh, magnitude, minimumFaceSurfaceArea, FirstOccurrences(mesh.normals, |mesh.vertices|));
        && |sides| == |kept|
        && forall i :: 0 <= i < |sides| ==> sides[i] == DiceSide(kept[i], i + 1)
    {
      ClearSides();
      if |mesh.normals| < |mesh.vertices| {
        return false;
      }
      var keys, groups := GroupByNormal(mesh);
      var sideCount := 1;
      var j := 0;
      ghost var kept: seq<Vec3> := [];
      while j < |keys|
        invariant 0 <= j <= |keys|
        invariant sideCount == |sides| + 1
        invariant kept == KeptNormals(mesh, magnitude, minimumFaceSurfaceArea, keys[..j])
        invariant NumberedInOrder(sides, kept)
      {
        var key := keys[j];
        KeptNormalsStep(mesh, magnitude, minimumFaceSurfaceArea, keys, j);
        var ok, surface := TryCalculateSurfaceArea(groups[key], magnitude);
        assert ok && surface > minimumFaceSurfaceArea
           <==> IsFace(magnitude, minimumFaceSurfaceArea, GroupOf(mesh, |mesh.vertices|, key));
        if ok {
          if surface > minimumFaceSurfaceArea {
            NumberedInOrderAppend(sides, kept, key);
            CreateSide(key, sideCount);
            sideCount := sideCount + 1;
            kept := kept + [key];
          }
        }
        j := j + 1;
      }
      assert keys[..|keys|] == keys;
      completed := true;
    }

    /** GetClosestResult: the value of the first side whose normal, in world
        space, is at the smallest angle to up. With no sides the source
        fails indexing the empty list; that is None here. */
    method GetClosestResult(toWorld: Vec3 -> Vec3, angle: (Vec3, Vec3) -> Degrees) returns (result: Option<int>)
      ensures result.None? <==> sides == []
      ensures result.Some? ==> exists k :: IsFirstClosest(sides, toWorld, angle, k) && result.value == sides[k].result
    {
      var currentAngle := SentinelAngle;
      var closestFaceIndex := 0;
      var index := 0;
      while index < |sides|
        invariant 0 <= index <= |sides|
        invariant index == 0 ==> closestFaceIndex == 0 && currentAngle == SentinelAngle
        invariant index > 0 ==> IsFirstClosest(sides[..index], toWorld, angle, closestFaceIndex)
        invariant index > 0 ==> currentAngle == AngleToUp(toWorld, angle, sides[closestFaceIndex])
      {
        var newAngle := AngleToUp(toWorld, angle, sides[index]);
        if newAngle < currentAngle {
          closestFaceIndex := index;
          currentAngle := newAngle;
        }
        index := index + 1;
      }
      if |sides| == 0 {
        return None;
      }
      assert sides[..index] == sides;
      return Some(sides[closestFaceIndex].result);
    }

    /** The die counts as in the air while it moves faster than the finish
        velocity or sits higher than the finish height. */
    predicate IsInAir(magnitude: Vec3 -> NonNegReal): (inAir: bool)
      reads this
      ensures magnitude(velocity) > rollFinishVelocity ==> inAir
      ensures position.y > rollFinishHeight ==> inAir
      ensures !inAir ==> magnitude(velocity) <= rollFinishVelocity && position.y <= rollFinishHeight
    {
      magnitude(velocity) > rollFinishVelocity || position.y > rollFinishHeight
    }

    /** OnMouseDown: a drag starts exactly when the die is not in the air,
        that is when it is both slow enough and low enough. */
    method OnMouseDown(magnitude: Vec3 -> NonNegReal) returns (startsDrag: bool)
      ensures startsDrag <==> magnitude(velocity) <= rollFinishVelocity && position.y <= rollFinishHeight
    {
      startsDrag := !IsInAir(magnitude);
    }
  }
}

# Dice roller core, modelled in Dafny

A Unity dice game: the player drags a die across a bounded part of the
screen and throws it, or lets it roll automatically. When the die comes to
rest, the side that points most nearly up is read off and added to a
running score. This project models the sequential logic under the engine
glue:

- **DiceController** (`Dice.dfy`):
  - It extracts the scoreable sides of a die from its mesh. Vertices are grouped by exact normal equality, and each group's fan-triangulated area is computed.
  - A group whose area is strictly greater than the minimum face area becomes a side. Sides are numbered 1, 2, 3, … in key order.
  - It reads the result as the first side whose world-space normal is at the smallest angle to up.
  - The resting test (`IsInAir`) gates the start of a drag.
- **MouseInputSurface** (`MouseInput.dfy`, with the rectangle in `Viewport.dfy`):
  - The pointer is clamped into a rectangle centred on the viewport, sized by width and height percentages.
  - It is then projected onto the horizontal throw plane. When projection fails, the screen point itself is returned.
- **BoundaryController** (`Boundary.dfy`):
  - Builds the pyramid collider. Its apex is the camera and its four walls pass through the corners of the same rectangle.
  - The resulting mesh is handed to both the mesh filter and the mesh collider.
- **ResultManager** (`Results.dfy`):
  - Keeps the running sum of submitted results in a C# `int`, with 32-bit wrap-around.
  - Pushes the last result and the new sum to its two displays.

Vectors are triples of mathematical reals (`Geometry.dfy`). The engine's geometry is passed in as function parameters, with only the facts the code relies on:

| Engine call | Parameter | Fact assumed |
|---|---|---|
| `Vector3.magnitude` | `magnitude` | non-negative |
| `Vector3.Angle` | `angle` | in [0, 180] |
| `TransformDirection` | `toWorld` | none |
| `Vector3.normalized` | `normalize` | none |
| `Camera.ScreenToWorldPoint` | a field of `Camera` | none |
| `Trigonometry.PointIntersectsAPlane` | `intersect` | see below |

`Trigonometry.PointIntersectsAPlane` is not part of this model. The
`LandsOnPlane` predicate states the assumption made of it: every point it
reports lies on the plane. `RayPlaneIntersection` is a reference solve shown
to satisfy that assumption.

The C# `Dictionary` used for grouping is modelled as a map plus the sequence
of its keys. The keys are enumerated in first-insertion order. C# does not
promise that order, so it is an assumption of the model, and the numbering
of the sides depends on it.

Where the code and its own documentation differ, the model follows the code.
The `_minimumFaceSurfaceArea` tooltip (Assets/Scripts/DiceController.cs line
53) says a face with "greater or equal" area becomes a side. The comparison
at line 134 is strict, and so is `IsFace`.

Behaviour worth noting:

- A percentage of 100 gives the whole viewport.
- A percentage of 0 collapses the rectangle to the centre pixel. The dragged target then equals the automatic-roll target (`ZeroPercentageIsCenter`).
- Normals are grouped by exact equality, with no tolerance.

## Model

| member | source | states |
|---|---|---|
| Viewport.HalfProportion | Assets/Scripts/MouseInputSurface.cs:40-41 | for a percentage in [0,100] the half-proportion lies in [0.5, 1] |
| Viewport.AxisBounds | Assets/Scripts/MouseInputSurface.cs:40-45 | the bounds on one axis are centred (min + max = pixel extent); for a percentage in [0,100] they satisfy 0 <= min <= max <= extent; 100% gives [0, extent]; 0% collapses both bounds to extent / 2 |
| Viewport.Bounds | Assets/Scripts/BoundaryController.cs:32-37 | the rectangle shared by the input surface and the boundary is centred on the viewport in both axes, with min <= max for percentages in [0,100] |
| Viewport.Clamp | Assets/Scripts/MouseInputSurface.cs:46-47 | Mathf.Clamp: the result lies in [min, max] when min <= max, is the value itself when that is already in range, and is always one of value, min or max |
| MouseInput.ClampedScreenPoint | Assets/Scripts/MouseInputSurface.cs:40-48 | the clamped pointer is at depth 5 and inside the input rectangle; at 100% an on-screen pointer passes unchanged; at 0% it is the viewport centre |
| MouseInput.PlaneOrigin | Assets/Scripts/MouseInputSurface.cs:74-77 | the plane's origin is a point at throw height |
| MouseInput.ThrowPlaneIsThrowHeight | Assets/Scripts/MouseInputSurface.cs:64-67 | the plane every cast asks about (through PlaneOrigin, normal up) is exactly the set of points at throw height |
| MouseInput.CenterScreenPoint | Assets/Scripts/MouseInputSurface.cs:54-56 | the centre point is at depth 5 and is the midpoint of the input rectangle for any percentages, so it lies inside the rectangle whenever they are valid |
| MouseInput.CastPointOnPlane | Assets/Scripts/MouseInputSurface.cs:60-72 | the camera ray through the world point under the screen point is tested against the throw plane (through PlaneOrigin, normal up); a reported intersection is returned; with none, the unprojected screen point is returned; when the routine only reports points of its plane, the result is the screen point or a point at throw height |
| MouseInput.GetMousePosition | Assets/Scripts/MouseInputSurface.cs:38-50 | the clamped pointer is cast: the reported intersection for it is returned, or the clamped pointer itself when there is none |
| MouseInput.GetCenterPosition | Assets/Scripts/MouseInputSurface.cs:52-58 | the viewport centre at depth 5 is cast: the reported intersection for it is returned, or the centre point itself when there is none |
| MouseInput.ZeroPercentageIsCenter | Assets/Scripts/MouseInputSurface.cs:40-58 | with both percentages 0 the clamped pointer is the centre point, so the drag target and the automatic-roll target coincide wherever the pointer is |
| MouseInput.FullPercentageKeepsPointer | Assets/Scripts/MouseInputSurface.cs:40-49 | with both percentages 100 an on-screen pointer is projected unclamped |
| MouseInput.RayPlaneIntersectionLandsOnPlane | Assets/Scripts/MouseInputSurface.cs:64-67 | the reference line-plane solve meets the assumption made of the intersection routine: every point it reports lies on the plane |
| MouseInput.CastKeepsPointsOnThrowPlane | Assets/Scripts/MouseInputSurface.cs:60-72 | with a real line-plane solve as the intersection routine, a screen point whose world point already lies at throw height is cast onto that world point, provided the camera is not at throw height |
| Boundary.WallTrianglesFormFan | Assets/Scripts/BoundaryController.cs:61-67 | the triangle list has 12 indices, all in [0,5); triangle t is (t + 1, apex 0, next corner round), so every triangle contains the apex |
| Boundary.WallEdgeOnce | Assets/Scripts/BoundaryController.cs:61-67 | a given corner pair (c, c mod 4 + 1) is an edge of exactly one triangle |
| Boundary.WallFanIsClosed | Assets/Scripts/BoundaryController.cs:61-67 | each corner pair (1,2), (2,3), (3,4), (4,1) is an edge of exactly one triangle: the fan is closed |
| Boundary.ScreenCorners | Assets/Scripts/BoundaryController.cs:38-41 | four screen points at depth 1: the rectangle's left-down, left-up, right-up and right-down corners, in that order; consecutive corners (and the last with the first) are the ends of one side, so in order they go round the rectangle |
| Boundary.BoundaryController.CameraVector | Assets/Scripts/BoundaryController.cs:72-76 | the corner vector is parallel to the normalised camera-to-world direction and points the same way (its component along it is 40 times the direction's squared length), and, when that has unit length, has length 40 |
| Boundary.WallsFollowRectangleSides | Assets/Scripts/BoundaryController.cs:38-67 | the two corner vertices of every wall are the ends of one side of the rectangle |
| Boundary.ForwardNormals | Assets/Scripts/BoundaryController.cs:54-58 | the normals array has the requested length and every entry is Vector3.forward |
| Boundary.BoundaryController.MakeAreaCollider | Assets/Scripts/BoundaryController.cs:30-70 | a fresh mesh is built with 5 vertices: the camera position first, then the camera position plus the corner vectors in the order left-down, left-up, right-up, right-down; its triangles are the wall fan; the filter and the collider both receive that same mesh, replacing what they held |
| Dice.FirstOccurrences | Assets/Scripts/DiceController.cs:122-125 | the dictionary keys are pairwise distinct and are exactly the normals seen, compared by exact equality |
| Dice.IndicesWith | Assets/Scripts/DiceController.cs:117-127 | every index listed under a key is a vertex index whose normal is that key |
| Dice.IndicesWithComplete | Assets/Scripts/DiceController.cs:117-127 | every vertex whose normal is the key is listed under it, in vertex-stream order |
| Dice.VertexInExactlyOneGroup | Assets/Scripts/DiceController.cs:117-127 | every vertex index is in the group of its own normal, which is a key, and in no other group |
| Dice.GroupSizesSumToVertexCount | Assets/Scripts/DiceController.cs:117-127 | the group sizes over all keys add up to the number of vertices |
| Dice.GroupByNormal | Assets/Scripts/DiceController.cs:117-127 | the grouping loop yields the keys in first-occurrence order and, under each key, the vertices with that normal in stream order |
| Dice.TriangleArea | Assets/Scripts/DiceController.cs:157-158 | a fan triangle's area is non-negative, and zero for a degenerate triangle (two equal corners) when the zero vector has zero magnitude |
| Dice.FanArea | Assets/Scripts/DiceController.cs:151-160 | the fan area, a sum of half cross-product magnitudes, is non-negative |
| Dice.SurfaceArea | Assets/Scripts/DiceController.cs:145-162 | the surface is non-negative, and zero for groups of at most two vertices |
| Dice.TryCalculateSurfaceArea | Assets/Scripts/DiceController.cs:143-163 | fails with area 0 exactly when there are fewer than two vertices; otherwise the accumulated area equals the fan surface, is non-negative, and is 0 for two vertices |
| Dice.KeptNormals | Assets/Scripts/DiceController.cs:129-140 | the kept keys are never more than the keys |
| Dice.KeptNormalsAreTheFaces | Assets/Scripts/DiceController.cs:129-140 | a key is kept exactly when its group has at least two vertices and an area strictly greater than the minimum; the kept keys stay distinct |
| Dice.NumberedInOrderAppend | Assets/Scripts/DiceController.cs:136-137 | creating a side numbered one past the list length keeps the list numbered 1..k in order |
| Dice.FirstClosestIsUnique | Assets/Scripts/DiceController.cs:203-211 | the first side at minimal angle is unique, so ties go to the earliest side |
| Dice.DiceController.constructor | Assets/Scripts/DiceController.cs:49-68 | the side list starts empty; minimum face area 1, roll-finish height 2.03, roll-finish velocity 0.02 |
| Dice.DiceController.ClearSides | Assets/Scripts/DiceController.cs:165-172 | the side list is empty afterwards |
| Dice.DiceController.CreateSide | Assets/Scripts/DiceController.cs:174-181 | exactly one side with the given normal and value is appended |
| Dice.DiceController.GetSidesFromMesh | Assets/Scripts/DiceController.cs:114-141 | the old sides are discarded; the new list holds exactly the kept keys, in key order, numbered 1..k; when the normals array is shorter than the vertex array the rebuild fails with the list left empty |
| Dice.DiceController.GetClosestResult | Assets/Scripts/DiceController.cs:198-215 | with sides, the value of the first side whose world-space normal is at the smallest angle to up (every earlier side strictly further); with no sides, no result |
| Dice.DiceController.IsInAir | Assets/Scripts/DiceController.cs:231-234 | the die is in the air whenever it moves faster than the roll-finish velocity or sits above the roll-finish height; not in the air means both slow enough and low enough |
| Dice.DiceController.OnMouseDown | Assets/Scripts/DiceController.cs:91-97 | a drag starts exactly when the die is not in the air: speed at most the roll-finish velocity and height at most the roll-finish height (IsInAir, lines 231-234) |
| Results.Wrap32 | Assets/Scripts/ResultManager.cs:17 | unchecked int addition: a value in the int range is kept as it is |
| Results.WrapAdd | Assets/Scripts/ResultManager.cs:17 | wrapping an intermediate sum does not change the wrapped total |
| Results.RunningSumIsWrappedTotal | Assets/Scripts/ResultManager.cs:13-17 | after any sequence of submissions the sum field is the total of all submitted results reduced into the int range |
| Results.RunningSumIsTotal | Assets/Scripts/ResultManager.cs:13-17 | while the total fits in an int the sum field equals the total exactly |
| Results.ResultManager.constructor | Assets/Scripts/ResultManager.cs:13 | the running sum starts at 0, with nothing submitted and nothing displayed |
| Results.ResultManager.AddDiceResult | Assets/Scripts/ResultManager.cs:15-20 | the sum grows by the result (with int wrap-around) and stays the wrapped total of the history; the current display shows the result and the sum display the new sum; nothing else changes |

## Left out

- The coroutines `DragAndRollCoroutine` and `RollAutomaticallyCoroutine` (Assets/Scripts/DiceController.cs:252-310) are left out. They step frame by frame, and their behaviour depends on physics integration between yields, mouse-button state and frame time. `OnMouseDown` is modelled as the decision whether to start a drag.
- `AdjustDicePosition` and `AdjustVelocity` are left out. They are frame-time interpolations over floats.
- `GetRandomVelocity` is left out: it uses engine randomness.
- `StartDragging`, `StartRolling`, `SubmitResult`, `FindDiceFaces` and `RollAutomatically` are left out. They only set rigid-body state or forward to modelled members and the coroutines.
- IEEE single-precision arithmetic is not modelled; all arithmetic is over mathematical reals.
- Engine geometry is passed in as parameters and is not part of this model. Only non-negative magnitudes and angles in [0, 180] are assumed.
- `Trigonometry.PointIntersectsAPlane` is not part of this model.
- Camera lookup in `Awake` (falling back to `Camera.main`) and the `Awake` call of `MakeAreaCollider` are left out. The camera is a field.
- Scene and UI work is left out: label creation and destruction, `DiceSide` serialisation callbacks, gizmos, logging and `ValueDisplay` text formatting. The displays of `ResultManager` are ghost fields holding the last value pushed.
- The editor inspectors under Assets/Scripts/Editor are left out.
- `StartRoll`, `AddRollResult` and `DiscardRoll` are called by DiceController but are not defined by ResultManager, so they are not modelled. Likewise `MakeAreaCollider`, which the MouseInputSurface editor calls, is not defined on MouseInputSurface.
- The normals array built in `MakeAreaCollider` is never attached to the mesh in the source, so the model fills it and does not attach it either.
- `_throwHeight`'s default of 5 is a field value here: the component is a value carrying whatever throw height it holds.
- Dice.DiceController.GetClosestResult: on an empty side list the source fails with an index error. The model returns no result instead.
- Dice.DiceController.GetSidesFromMesh: when the normals array is shorter than the vertex array, the source fails with an index error after the old sides are cleared. The model reports failure with the side list empty.
- Dice.SurfaceArea: it does not state that the area is independent of the fan's starting vertex. That would need facts about the cross-product magnitude, which is abstract here.
- Dice.GroupByNormal: enumeration of the dictionary's keys in first-insertion order is an assumption of the model, not a guarantee of C#.
- MouseInput.CastPointOnPlane: the conclusion "a point at throw height" holds only under the `LandsOnPlane` assumption about the intersection routine, whose code is not part of this model.

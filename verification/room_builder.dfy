/** The room mesh builder: a ring of floor vertices with one visibility
    flag per wall (wall i joins vertex i to vertex i + 1, wrapping at the
    end), rebuilt into one mesh holding the floor, the ceiling (the floor
    raised by the ceiling height, facing down) and a quad per visible wall,
    with three submeshes in the order floor, ceiling, walls. The polygon
    triangulator and the distance function are parameters. */
module RoomBuilder {
  import opened Results
  import Text

  datatype Vec3 = Vec3(x: real, y: real, z: real)
  datatype Vec2 = Vec2(u: real, v: real)

  /** A vertex child object: its name and local position. */
  datatype Vertex = Vertex(name: string, position: Vec3)

  datatype Materials = Materials(floor: string, wall: string, ceiling: string)

  datatype Room = Room(
    vertices: seq<Vertex>,
    wallVisibility: seq<bool>,
    ceilingHeight: real,
    materials: Materials)

  const VertexPrefix: string := "Vertex_"

  /** The inspector default for the ceiling height. */
  const DefaultCeilingHeight: real := 1.0

  /** The name `CreateVertex` gives the vertex created as number n. */
  function VertexName(n: nat): string {
    VertexPrefix + Text.NatToString(n)
  }

  /** One visibility flag per wall. */
  predicate WallsMatchVertices(r: Room) {
    |r.wallVisibility| == |r.vertices|
  }

  /** `AdjustWallVisibilityList`: grow the list with visible walls, or cut
      it back from the end, until it has one entry per vertex. */
  function AdjustWallVisibility(visibility: seq<bool>, walls: nat): (r: seq<bool>)
    ensures |r| == walls
    ensures forall i :: 0 <= i < walls && i < |visibility| ==> r[i] == visibility[i]
    ensures forall i :: |visibility| <= i < walls ==> r[i]
  {
    if |visibility| < walls then visibility + seq(walls - |visibility|, _ => true)
    else if |visibility| > walls then visibility[..walls]
    else visibility
  }

  function AdjustWalls(r: Room): (r': Room)
    ensures WallsMatchVertices(r')
    ensures r'.vertices == r.vertices && r'.ceilingHeight == r.ceilingHeight && r'.materials == r.materials
  {
    r.(wallVisibility := AdjustWallVisibility(r.wallVisibility, |r.vertices|))
  }

  /** Adjusting an adjusted list changes nothing. */
  lemma AdjustIsIdempotent(visibility: seq<bool>, walls: nat)
    ensures AdjustWallVisibility(AdjustWallVisibility(visibility, walls), walls)
            == AdjustWallVisibility(visibility, walls)
  {
  }

  /** `CreateVertex`: append a vertex named after the current count, then
      resynchronise the visibility list. */
  function CreateVertex(r: Room, position: Vec3): (r': Room)
    ensures r'.vertices == r.vertices + [Vertex(VertexName(|r.vertices|), position)]
    ensures WallsMatchVertices(r')
    ensures forall i :: 0 <= i < |r.vertices| && i < |r.wallVisibility| ==> r'.wallVisibility[i] == r.wallVisibility[i]
    ensures WallsMatchVertices(r) ==> r'.wallVisibility == r.wallVisibility + [true]
  {
    var name := VertexName(|r.vertices|);
    AdjustWalls(r.(vertices := r.vertices + [Vertex(name, position)]))
  }

  /** `RemoveLastVertex`: drop the last vertex and resynchronise; an empty
      ring is left alone. There is no lower bound of three vertices. */
  function RemoveLastVertex(r: Room): (r': Room)
    ensures |r.vertices| == 0 ==> r' == r
    ensures |r.vertices| > 0 ==>
      && r'.vertices == r.vertices[..|r.vertices| - 1]
      && WallsMatchVertices(r')
      && (forall i :: 0 <= i < |r'.vertices| && i < |r.wallVisibility| ==> r'.wallVisibility[i] == r.wallVisibility[i])
  {
    if |r.vertices| > 0 then AdjustWalls(r.(vertices := r.vertices[..|r.vertices| - 1]))
    else r
  }

  /** Removing the vertex just created restores the room. */
  lemma RemoveUndoesCreate(r: Room, position: Vec3)
    requires WallsMatchVertices(r)
    ensures RemoveLastVertex(CreateVertex(r, position)) == r
  {
    var c := CreateVertex(r, position);
    assert c.vertices[..|c.vertices| - 1] == r.vertices;
    assert c.wallVisibility[..|r.vertices|] == r.wallVisibility;
  }

  /** The corners of the square room made when no vertex exists. */
  const DefaultCorners: seq<Vec3> := [
    Vec3(-5.0, 0.0, -5.0), Vec3(5.0, 0.0, -5.0), Vec3(5.0, 0.0, 5.0), Vec3(-5.0, 0.0, 5.0)]

  /** `CreateVertex` for each position in turn. */
  function CreateAll(r: Room, positions: seq<Vec3>): (r': Room)
    ensures |r'.vertices| == |r.vertices| + |positions|
    ensures r'.vertices[..|r.vertices|] == r.vertices
    ensures forall k :: 0 <= k < |positions| ==>
      r'.vertices[|r.vertices| + k] == Vertex(VertexName(|r.vertices| + k), positions[k])
    ensures |positions| > 0 ==> WallsMatchVertices(r')
    decreases |positions|
  {
    if |positions| == 0 then r
    else
      var next := CreateVertex(r, positions[0]);
      var r' := CreateAll(next, positions[1..]);
      assert r'.vertices[..|r.vertices|] == r.vertices by {
        assert r'.vertices[..|next.vertices|] == next.vertices;
        assert r'.vertices[..|r.vertices|] == r'.vertices[..|next.vertices|][..|r.vertices|];
      }
      assert forall k :: 0 <= k < |positions| ==>
        r'.vertices[|r.vertices| + k] == Vertex(VertexName(|r.vertices| + k), positions[k]) by {
        forall k | 0 <= k < |positions|
          ensures r'.vertices[|r.vertices| + k] == Vertex(VertexName(|r.vertices| + k), positions[k])
        {
          if k == 0 {
            assert r'.vertices[|r.vertices|] == r'.vertices[..|next.vertices|][|r.vertices|];
          } else {
            assert positions[1..][k - 1] == positions[k];
          }
        }
      }
      r'
  }

  /** The children whose names start with the vertex prefix, in order. */
  function FilterVertices(children: seq<Vertex>): (r: seq<Vertex>)
    ensures forall i :: 0 <= i < |r| ==> Text.StartsWith(r[i].name, VertexPrefix)
    ensures forall c :: c in children && Text.StartsWith(c.name, VertexPrefix) ==> c in r
    ensures forall c :: c in r ==> c in children
    ensures |r| <= |children|
    ensures |children| == 1 ==> r == (if Text.StartsWith(children[0].name, VertexPrefix) then children else [])
  {
    if |children| == 0 then []
    else
      var rest := FilterVertices(children[1..]);
      if Text.StartsWith(children[0].name, VertexPrefix) then [children[0]] + rest else rest
  }

  /** Filtering keeps the children's order: filtering two runs of children
      one after the other gives the two filtered runs one after the other.
      With the single-child case this pins the result down completely. */
  lemma {:induction false} FilterVerticesKeepsOrder(a: seq<Vertex>, b: seq<Vertex>)
    ensures FilterVertices(a + b) == FilterVertices(a) + FilterVertices(b)
    decreases |a|
  {
    if |a| > 0 {
      assert (a + b)[0] == a[0];
      assert (a + b)[1..] == a[1..] + b;
      FilterVerticesKeepsOrder(a[1..], b);
    } else {
      assert a + b == b;
    }
  }

  /** Children that all carry the prefix are kept as they are. */
  lemma {:induction false} FilterKeepsPrefixed(children: seq<Vertex>)
    requires forall i :: 0 <= i < |children| ==> Text.StartsWith(children[i].name, VertexPrefix)
    ensures FilterVertices(children) == children
    decreases |children|
  {
    if |children| > 0 {
      FilterKeepsPrefixed(children[1..]);
      assert children == [children[0]] + children[1..];
    }
  }

  /** `InitializeFloorVertices`: collect the children whose names start
      with the vertex prefix; with none, create the default square, named
      Vertex_0 to Vertex_3; then resynchronise the visibility list. */
  function InitializeFloorVertices(r: Room, children: seq<Vertex>): (r': Room)
    ensures WallsMatchVertices(r')
    ensures |FilterVertices(children)| > 0 ==> r'.vertices == FilterVertices(children)
    ensures |FilterVertices(children)| == 0 ==>
      r'.vertices == [Vertex("Vertex_0", DefaultCorners[0]), Vertex("Vertex_1", DefaultCorners[1]),
                      Vertex("Vertex_2", DefaultCorners[2]), Vertex("Vertex_3", DefaultCorners[3])]
  {
    var kept := FilterVertices(children);
    if |kept| == 0 then
      var square := CreateAll(r.(vertices := []), DefaultCorners);
      assert |square.vertices| == 4;
      assert VertexName(0) == "Vertex_0" && VertexName(1) == "Vertex_1";
      assert VertexName(2) == "Vertex_2" && VertexName(3) == "Vertex_3";
      assert square.vertices[0] == Vertex(VertexName(0), DefaultCorners[0]);
      assert square.vertices[1] == Vertex(VertexName(1), DefaultCorners[1]);
      assert square.vertices[2] == Vertex(VertexName(2), DefaultCorners[2]);
      assert square.vertices[3] == Vertex(VertexName(3), DefaultCorners[3]);
      AdjustWalls(square)
    else AdjustWalls(r.(vertices := kept))
  }

  /** Initialising again from the vertices it produced changes nothing: the
      default square's names carry the prefix, so a second pass keeps them. */
  lemma InitializeIsIdempotent(r: Room, children: seq<Vertex>)
    ensures var r' := InitializeFloorVertices(r, children);
            InitializeFloorVertices(r', r'.vertices) == r'
  {
    var r' := InitializeFloorVertices(r, children);
    forall i | 0 <= i < |r'.vertices|
      ensures Text.StartsWith(r'.vertices[i].name, VertexPrefix)
    {
      if |FilterVertices(children)| == 0 {
        assert r'.vertices[i].name[..7] == VertexPrefix;
      } else {
        assert r'.vertices[i] in FilterVertices(children);
      }
    }
    FilterKeepsPrefixed(r'.vertices);
    AdjustIsIdempotent(r'.wallVisibility, |r'.vertices|);
  }

  /** Creating two runs of positions is creating the joined run. */
  lemma {:induction false} CreateAllSplits(r: Room, a: seq<Vec3>, b: seq<Vec3>)
    ensures CreateAll(r, a + b) == CreateAll(CreateAll(r, a), b)
    decreases |a|
  {
    if |a| > 0 {
      assert (a + b)[0] == a[0];
      assert (a + b)[1..] == a[1..] + b;
      CreateAllSplits(CreateVertex(r, a[0]), a[1..], b);
    } else {
      assert a + b == b;
    }
  }

  /** The number of visible walls among the given flags. */
  function CountVisible(visibility: seq<bool>): (n: nat)
    ensures n <= |visibility|
  {
    if |visibility| == 0 then 0
    else CountVisible(visibility[..|visibility| - 1]) + (if visibility[|visibility| - 1] then 1 else 0)
  }

  /** A point moved up by the ceiling height. */
  function Raise(v: Vec3, height: real): Vec3 {
    v.(y := v.y + height)
  }

  /** The floor and ceiling texture coordinate of a vertex: its x and z. */
  function PlanUV(v: Vec3): Vec2 {
    Vec2(v.x, v.z)
  }

  /** The corner a wall ends at: the next vertex of the ring, wrapping from
      the last back to the first (`(i + 1) % N`). */
  function NextCorner(i: nat, n: nat): (next: nat)
    requires i < n
    ensures next < n
    ensures next == if i == n - 1 then 0 else i + 1
  {
    (i + 1) % n
  }

  /** The two triangles (b, b+1, b+2) and (b+2, b+3, b) of the quad whose
      first vertex has index b. */
  function QuadTriangles(b: int): (t: seq<int>)
    ensures |t| == 6 && forall k :: 0 <= k < 6 ==> b <= t[k] < b + 4
  {
    [b, b + 1, b + 2, b + 2, b + 3, b]
  }

  datatype Buffers = Buffers(vertices: seq<Vec3>, uvs: seq<Vec2>, triangles: seq<int>)

  /** The wall part of `UpdateRoom` for walls 0 .. k-1: each visible wall i
      appends the quad floor[i], floor[i+1], ceiling[i+1], ceiling[i]
      (wrapping at the end of the ring), its texture coordinates (u along
      the wall, v up to the ceiling height) and the two triangles of the
      quad; `offset` is the index its first vertex will have in the mesh. */
  function WallBuffers(floor: seq<Vec3>, visibility: seq<bool>, height: real,
                       distance: (Vec3, Vec3) -> real, offset: int, k: nat): (b: Buffers)
    requires |visibility| == |floor| && k <= |floor|
    ensures |b.vertices| == 4 * CountVisible(visibility[..k]) == |b.uvs|
    ensures |b.triangles| == 6 * CountVisible(visibility[..k])
    ensures forall t :: 0 <= t < |b.triangles| ==> offset <= b.triangles[t] < offset + |b.vertices|
    decreases k
  {
    if k == 0 then Buffers([], [], [])
    else
      var prev := WallBuffers(floor, visibility, height, distance, offset, k - 1);
      assert visibility[..k][..k - 1] == visibility[..k - 1];
      var i := k - 1;
      if !visibility[i] then prev
      else
        var next := NextCorner(i, |floor|);
        var v0, v1 := floor[i], floor[next];
        var v2, v3 := Raise(floor[next], height), Raise(floor[i], height);
        var length := distance(v0, v1);
        var base := offset + |prev.vertices|;
        Buffers(prev.vertices + [v0, v1, v2, v3],
                prev.uvs + [Vec2(0.0, 0.0), Vec2(length, 0.0), Vec2(length, height), Vec2(0.0, height)],
                prev.triangles + QuadTriangles(base))
  }

  /** The buffers for fewer walls are a prefix of those for more. */
  lemma {:induction false} WallBuffersGrow(floor: seq<Vec3>, visibility: seq<bool>, height: real,
                                           distance: (Vec3, Vec3) -> real, offset: int, j: nat, k: nat)
    requires |visibility| == |floor| && j <= k <= |floor|
    ensures var small := WallBuffers(floor, visibility, height, distance, offset, j);
            var large := WallBuffers(floor, visibility, height, distance, offset, k);
            && small.vertices <= large.vertices && small.uvs <= large.uvs && small.triangles <= large.triangles
    decreases k - j
  {
    if j < k {
      WallBuffersGrow(floor, visibility, height, distance, offset, j, k - 1);
    }
  }

  /** The quad of visible wall i: it is the c-th visible wall, where c
      counts the visible walls before it, so its vertices start at 4c and
      its triangles at 6c; it joins vertex i to vertex i+1 (mod N), and its
      triangles are (b, b+1, b+2) and (b+2, b+3, b) for its first index b. */
  lemma {:induction false} WallQuad(floor: seq<Vec3>, visibility: seq<bool>, height: real,
                                    distance: (Vec3, Vec3) -> real, offset: int, k: nat, i: nat)
    requires |visibility| == |floor| && i < k <= |floor| && visibility[i]
    ensures var b := WallBuffers(floor, visibility, height, distance, offset, k);
            var c := CountVisible(visibility[..i]);
            var next := NextCorner(i, |floor|);
            var length := distance(floor[i], floor[next]);
            var base := offset + 4 * c;
            && 4 * c + 4 <= |b.vertices| && 6 * c + 6 <= |b.triangles|
            && b.vertices[4 * c..4 * c + 4]
               == [floor[i], floor[next], Raise(floor[next], height), Raise(floor[i], height)]
            && b.uvs[4 * c..4 * c + 4]
               == [Vec2(0.0, 0.0), Vec2(length, 0.0), Vec2(length, height), Vec2(0.0, height)]
            && b.triangles[6 * c..6 * c + 6] == QuadTriangles(base)
  {
    var b := WallBuffers(floor, visibility, height, distance, offset, k);
    var at := WallBuffers(floor, visibility, height, distance, offset, i + 1);
    var c := CountVisible(visibility[..i]);
    LastQuad(floor, visibility, height, distance, offset, i);
    WallBuffersGrow(floor, visibility, height, distance, offset, i + 1, k);
    assert b.vertices[4 * c..4 * c + 4] == at.vertices[4 * c..];
    assert b.uvs[4 * c..4 * c + 4] == at.uvs[4 * c..];
    assert b.triangles[6 * c..6 * c + 6] == at.triangles[6 * c..];
  }

  /** The triangle half of `WallQuad`, on its own. */
  lemma {:induction false} WallQuadTriangles(floor: seq<Vec3>, visibility: seq<bool>, height: real,
                                             distance: (Vec3, Vec3) -> real, offset: int, k: nat, i: nat)
    requires |visibility| == |floor| && i < k <= |floor| && visibility[i]
    ensures var b := WallBuffers(floor, visibility, height, distance, offset, k);
            var c := CountVisible(visibility[..i]);
            && 6 * c + 6 <= |b.triangles|
            && b.triangles[6 * c..6 * c + 6] == QuadTriangles(offset + 4 * c)
  {
    WallQuad(floor, visibility, height, distance, offset, k, i);
  }

  /** Visible wall i is the last quad of the buffers for walls 0 .. i. */
  lemma LastQuad(floor: seq<Vec3>, visibility: seq<bool>, height: real,
                 distance: (Vec3, Vec3) -> real, offset: int, i: nat)
    requires |visibility| == |floor| && i < |floor| && visibility[i]
    ensures var at := WallBuffers(floor, visibility, height, distance, offset, i + 1);
            var c := CountVisible(visibility[..i]);
            var next := NextCorner(i, |floor|);
            var length := distance(floor[i], floor[next]);
            && |at.vertices| == 4 * c + 4 && |at.triangles| == 6 * c + 6
            && at.vertices[4 * c..] == [floor[i], floor[next], Raise(floor[next], height), Raise(floor[i], height)]
            && at.uvs[4 * c..] == [Vec2(0.0, 0.0), Vec2(length, 0.0), Vec2(length, height), Vec2(0.0, height)]
            && at.triangles[6 * c..] == QuadTriangles(offset + 4 * c)
  {
    var before := WallBuffers(floor, visibility, height, distance, offset, i);
    assert visibility[..i + 1][..i] == visibility[..i];
    assert |before.vertices| == 4 * CountVisible(visibility[..i]);
  }

  datatype Mesh = Mesh(
    vertices: seq<Vec3>,
    uvs: seq<Vec2>,
    submeshes: seq<seq<int>>,   // floor, ceiling, walls
    materials: seq<string>)

  datatype Rebuild = Rebuild(room: Room, mesh: Option<Mesh>)

  function Positions(vertices: seq<Vertex>): (p: seq<Vec3>)
    ensures |p| == |vertices| && forall i :: 0 <= i < |p| ==> p[i] == vertices[i].position
  {
    seq(|vertices|, i requires 0 <= i < |vertices| => vertices[i].position)
  }

  function CeilingPositions(floor: seq<Vec3>, height: real): (c: seq<Vec3>)
    ensures |c| == |floor| && forall i :: 0 <= i < |c| ==> c[i] == Raise(floor[i], height)
  {
    seq(|floor|, i requires 0 <= i < |floor| => Raise(floor[i], height))
  }

  /** The ceiling's triangle list: the triangulator's indices in reverse
      order (flipping each triangle to face down), shifted past the floor
      vertices. */
  function CeilingIndices(indices: seq<int>, shift: int): (r: seq<int>)
    ensures |r| == |indices|
    ensures forall k :: 0 <= k < |r| ==> r[k] == indices[|indices| - 1 - k] + shift
  {
    seq(|indices|, k requires 0 <= k < |indices| => indices[|indices| - 1 - k] + shift)
  }

  /** The combined buffer of a room whose visibility list already matches
      its vertices: the N floor vertices, the N ceiling vertices, then four
      per visible wall; the texture coordinates line up one to one with
      them; the submeshes are the floor's triangles, the ceiling's (reversed
      and shifted by N) and the walls', drawn with the floor, ceiling and
      wall materials in that order. */
  function BuildMesh(room: Room, triangulate: seq<Vec3> -> seq<int>, distance: (Vec3, Vec3) -> real): (m: Mesh)
    requires WallsMatchVertices(room)
    ensures |m.vertices| == 2 * |room.vertices| + 4 * CountVisible(room.wallVisibility)
    ensures |m.uvs| == |m.vertices|
    ensures |m.submeshes| == 3 && |m.submeshes[2]| == 6 * CountVisible(room.wallVisibility)
    ensures m.materials == [room.materials.floor, room.materials.ceiling, room.materials.wall]
  {
    var n := |room.vertices|;
    var floor := Positions(room.vertices);
    var ceiling := CeilingPositions(floor, room.ceilingHeight);
    var walls := WallBuffers(floor, room.wallVisibility, room.ceilingHeight, distance, 2 * n, n);
    assert room.wallVisibility[..n] == room.wallVisibility;
    Mesh(floor + ceiling + walls.vertices,
         PlanUVs(floor) + PlanUVs(floor) + walls.uvs,
         [triangulate(floor), CeilingIndices(triangulate(ceiling), n), walls.triangles],
         [room.materials.floor, room.materials.ceiling, room.materials.wall])
  }

  function PlanUVs(floor: seq<Vec3>): (uvs: seq<Vec2>)
    ensures |uvs| == |floor| && forall i :: 0 <= i < |uvs| ==> uvs[i] == PlanUV(floor[i])
  {
    seq(|floor|, i requires 0 <= i < |floor| => PlanUV(floor[i]))
  }

  /** The floor and ceiling part of the combined buffer: vertex i is floor
      vertex i and vertex N+i the same point raised by the ceiling height,
      both textured by their plan position; the floor is drawn with the
      triangulator's triangles and the ceiling with its triangles of the
      raised polygon, reversed and shifted by N. */
  lemma MeshPlanLayout(room: Room, triangulate: seq<Vec3> -> seq<int>, distance: (Vec3, Vec3) -> real)
    requires WallsMatchVertices(room)
    ensures var m := BuildMesh(room, triangulate, distance);
      var n := |room.vertices|;
      var floor := Positions(room.vertices);
      && (forall i :: 0 <= i < n ==> m.vertices[i] == room.vertices[i].position)
      && (forall i :: 0 <= i < n ==> m.vertices[n + i] == Raise(room.vertices[i].position, room.ceilingHeight))
      && (forall i :: 0 <= i < n ==> m.uvs[i] == m.uvs[n + i] == PlanUV(room.vertices[i].position))
      && m.submeshes[0] == triangulate(floor)
      && m.submeshes[1] == CeilingIndices(triangulate(CeilingPositions(floor, room.ceilingHeight)), n)
  {
    var n := |room.vertices|;
    var floor := Positions(room.vertices);
    var ceiling := CeilingPositions(floor, room.ceilingHeight);
    var walls := WallBuffers(floor, room.wallVisibility, room.ceilingHeight, distance, 2 * n, n);
    var m := BuildMesh(room, triangulate, distance);
    assert m.vertices == floor + ceiling + walls.vertices;
    assert m.uvs == PlanUVs(floor) + PlanUVs(floor) + walls.uvs;
    forall i | 0 <= i < n
      ensures m.vertices[i] == room.vertices[i].position
      ensures m.vertices[n + i] == Raise(room.vertices[i].position, room.ceilingHeight)
      ensures m.uvs[i] == m.uvs[n + i] == PlanUV(room.vertices[i].position)
    {
      assert m.vertices[i] == floor[i];
      assert m.vertices[n + i] == ceiling[i];
      assert m.uvs[i] == PlanUVs(floor)[i];
      assert m.uvs[n + i] == PlanUVs(floor)[i];
    }
  }

  /** `UpdateRoom`: with fewer than three vertices nothing is built and the
      visibility list is not touched; otherwise the visibility list is
      first fitted to the vertex count and the mesh built from the result. */
  function UpdateRoom(r: Room, triangulate: seq<Vec3> -> seq<int>, distance: (Vec3, Vec3) -> real): (out: Rebuild)
    ensures out.mesh.None? <==> |r.vertices| < 3
    ensures |r.vertices| < 3 ==> out.room == r
    ensures |r.vertices| >= 3 ==>
      && out.room == AdjustWalls(r)
      && out.mesh.value == BuildMesh(out.room, triangulate, distance)
      && |out.mesh.value.vertices| == 2 * |r.vertices| + 4 * CountVisible(out.room.wallVisibility)
  {
    if |r.vertices| < 3 then Rebuild(r, None)
    else
      var room := AdjustWalls(r);
      Rebuild(room, Some(BuildMesh(room, triangulate, distance)))
  }

  /** Each visible wall i is its own quad in the combined buffer: four
      vertices from vertex i to vertex i+1 (mod N) and up to the ceiling,
      starting after the floor, the ceiling and the quads of the visible
      walls before it, textured along the wall and up to the ceiling
      height, and drawn as two triangles over those four vertices. */
  lemma {:induction false} MeshHasQuadPerVisibleWall(room: Room, triangulate: seq<Vec3> -> seq<int>,
                                                     distance: (Vec3, Vec3) -> real, i: nat)
    requires WallsMatchVertices(room) && i < |room.vertices| && room.wallVisibility[i]
    ensures var m := BuildMesh(room, triangulate, distance);
            var n := |room.vertices|;
            var h := room.ceilingHeight;
            var next := NextCorner(i, n);
            var p, q := room.vertices[i].position, room.vertices[next].position;
            var c := CountVisible(room.wallVisibility[..i]);
            var base := 2 * n + 4 * c;
            && base + 4 <= |m.vertices| && 6 * c + 6 <= |m.submeshes[2]|
            && m.vertices[base..base + 4] == [p, q, Raise(q, h), Raise(p, h)]
            && m.uvs[base..base + 4]
               == [Vec2(0.0, 0.0), Vec2(distance(p, q), 0.0), Vec2(distance(p, q), h), Vec2(0.0, h)]
            && m.submeshes[2][6 * c..6 * c + 6] == QuadTriangles(base)
  {
    QuadVerticesInMesh(room, triangulate, distance, i);
    QuadTrianglesInMesh(room, triangulate, distance, i);
  }

  lemma {:induction false} QuadVerticesInMesh(room: Room, triangulate: seq<Vec3> -> seq<int>,
                                              distance: (Vec3, Vec3) -> real, i: nat)
    requires WallsMatchVertices(room) && i < |room.vertices| && room.wallVisibility[i]
    ensures var m := BuildMesh(room, triangulate, distance);
            var n := |room.vertices|;
            var h := room.ceilingHeight;
            var next := NextCorner(i, n);
            var p, q := room.vertices[i].position, room.vertices[next].position;
            var base := 2 * n + 4 * CountVisible(room.wallVisibility[..i]);
            && base + 4 <= |m.vertices|
            && m.vertices[base..base + 4] == [p, q, Raise(q, h), Raise(p, h)]
            && m.uvs[base..base + 4]
               == [Vec2(0.0, 0.0), Vec2(distance(p, q), 0.0), Vec2(distance(p, q), h), Vec2(0.0, h)]
  {
    var n := |room.vertices|;
    var floor := Positions(room.vertices);
    var m := BuildMesh(room, triangulate, distance);
    MeshEndsWithWalls(room, triangulate, distance);
    WallQuad(floor, room.wallVisibility, room.ceilingHeight, distance, 2 * n, n, i);
    var c := CountVisible(room.wallVisibility[..i]);
    var next := NextCorner(i, n);
    var walls := WallBuffers(floor, room.wallVisibility, room.ceilingHeight, distance, 2 * n, n);
    var p, q := room.vertices[i].position, room.vertices[next].position;
    assert floor[i] == p && floor[next] == q;
    SliceOfSuffix(m.vertices, 2 * n, 4 * c, 4);
    SliceOfSuffix(m.uvs, 2 * n, 4 * c, 4);
    assert m.vertices[2 * n + 4 * c..2 * n + 4 * c + 4] == walls.vertices[4 * c..4 * c + 4];
    assert m.uvs[2 * n + 4 * c..2 * n + 4 * c + 4] == walls.uvs[4 * c..4 * c + 4];
  }

  lemma {:induction false} QuadTrianglesInMesh(room: Room, triangulate: seq<Vec3> -> seq<int>,
                                               distance: (Vec3, Vec3) -> real, i: nat)
    requires WallsMatchVertices(room) && i < |room.vertices| && room.wallVisibility[i]
    ensures var m := BuildMesh(room, triangulate, distance);
            var c := CountVisible(room.wallVisibility[..i]);
            && 6 * c + 6 <= |m.submeshes[2]|
            && m.submeshes[2][6 * c..6 * c + 6] == QuadTriangles(2 * |room.vertices| + 4 * c)
  {
    var n := |room.vertices|;
    var walls := WallBuffers(Positions(room.vertices), room.wallVisibility, room.ceilingHeight, distance, 2 * n, n);
    var c := CountVisible(room.wallVisibility[..i]);
    MeshEndsWithWalls(room, triangulate, distance);
    WallQuadTriangles(Positions(room.vertices), room.wallVisibility, room.ceilingHeight, distance, 2 * n, n, i);
  }

  lemma SliceOfSuffix<T>(s: seq<T>, start: nat, from: nat, len: nat)
    requires start + from + len <= |s|
    ensures s[start..][from..from + len] == s[start + from..start + from + len]
  {
  }

  /** The part of the combined buffer after the floor and the ceiling is
      exactly what the walls contribute. */
  lemma MeshEndsWithWalls(room: Room, triangulate: seq<Vec3> -> seq<int>, distance: (Vec3, Vec3) -> real)
    requires WallsMatchVertices(room)
    ensures var n := |room.vertices|;
            var m := BuildMesh(room, triangulate, distance);
            var walls := WallBuffers(Positions(room.vertices), room.wallVisibility, room.ceilingHeight, distance, 2 * n, n);
            && m.vertices[2 * n..] == walls.vertices
            && m.uvs[2 * n..] == walls.uvs
            && m.submeshes[2] == walls.triangles
  {
  }

  /** When the triangulator returns indices into the polygon it was given,
      every index of every submesh of the rebuilt room points into the
      combined vertex buffer, and into the right part of it: floor indices
      below N, ceiling indices in [N, 2N), wall indices from 2N on. */
  lemma MeshIndicesInRange(room: Room, triangulate: seq<Vec3> -> seq<int>, distance: (Vec3, Vec3) -> real)
    requires WallsMatchVertices(room)
    requires var floor := Positions(room.vertices);
             var tf := triangulate(floor);
             var tc := triangulate(CeilingPositions(floor, room.ceilingHeight));
             && (forall k :: 0 <= k < |tf| ==> 0 <= tf[k] < |floor|)
             && (forall k :: 0 <= k < |tc| ==> 0 <= tc[k] < |floor|)
    ensures var m := BuildMesh(room, triangulate, distance);
            var n := |room.vertices|;
            && (forall k :: 0 <= k < |m.submeshes[0]| ==> 0 <= m.submeshes[0][k] < n)
            && (forall k :: 0 <= k < |m.submeshes[1]| ==> n <= m.submeshes[1][k] < 2 * n)
            && (forall k :: 0 <= k < |m.submeshes[2]| ==> 2 * n <= m.submeshes[2][k] < |m.vertices|)
  {
    MeshPlanLayout(room, triangulate, distance);
    MeshEndsWithWalls(room, triangulate, distance);
  }

  /** For a triangulator that only looks at the plan (x and z) of the
      polygon, the ceiling is the floor's triangles in reverse order, so
      each ceiling triangle is a floor triangle with its winding flipped. */
  lemma CeilingMirrorsFloor(room: Room, triangulate: seq<Vec3> -> seq<int>, distance: (Vec3, Vec3) -> real)
    requires WallsMatchVertices(room)
    requires var floor := Positions(room.vertices);
             triangulate(CeilingPositions(floor, room.ceilingHeight)) == triangulate(floor)
    ensures var m := BuildMesh(room, triangulate, distance);
            var n := |room.vertices|;
            && |m.submeshes[1]| == |m.submeshes[0]|
            && forall k :: 0 <= k < |m.submeshes[0]| ==>
                 m.submeshes[1][k] == m.submeshes[0][|m.submeshes[0]| - 1 - k] + n
  {
    MeshPlanLayout(room, triangulate, distance);
  }
}

/**
 * The UV-sphere triangle soup of the raw OpenGL demo (`generate_sphere` in
 * escena_opengl/p1.c): a latitude x longitude grid of cells, two triangles
 * per cell, written as a flat float buffer through a running write index.
 */
module Sphere {
  import opened Geometry

  /** Largest value of a C `int` (the source's counts and index are `int`). */
  const IntMax: int := 0x7fff_ffff

  /** The fixed sphere radius `0.5f`. */
  const Radius: real := 0.5

  /**
   * The math library the generator calls: `sinf`, `cosf` and the constant `M_PI`.
   * Their numeric values are not modelled; every property below holds whatever they are.
   */
  datatype Trig = Trig(sin: real -> real, cos: real -> real, pi: real) {
    /** `sinf(a)` */
    function Sinf(a: real): real { sin(a) }
    /** `cosf(a)` */
    function Cosf(a: real): real { cos(a) }
  }

  /** Polar angle of latitude line `lat` out of `latSegments` bands over [0, pi]. */
  function Theta(trig: Trig, latSegments: int, lat: int): (theta: real)
    requires 0 < latSegments
    ensures lat == 0 ==> theta == 0.0
    ensures lat == latSegments ==> theta == trig.pi
  {
    (lat as real) / (latSegments as real) * trig.pi
  }

  /** Azimuthal angle of longitude line `lon` out of `lonSegments` bands over [0, 2 pi]. */
  function Phi(trig: Trig, lonSegments: int, lon: int): (phi: real)
    requires 0 < lonSegments
    ensures lon == 0 ==> phi == 0.0
    ensures lon == lonSegments ==> phi == 2.0 * trig.pi
  {
    (lon as real) / (lonSegments as real) * 2.0 * trig.pi
  }

  /**
   * Spherical-to-Cartesian mapping of one grid corner, y being the polar axis: the
   * height depends on theta alone, and the corner lies in the meridian plane of azimuth phi.
   */
  function Corner(trig: Trig, theta: real, phi: real): (c: Vec3)
    ensures c.y == Radius * trig.Cosf(theta)
    ensures c.x * trig.Sinf(phi) == c.z * trig.Cosf(phi)
  {
    Vec3(Radius * trig.Sinf(theta) * trig.Cosf(phi),
         Radius * trig.Cosf(theta),
         Radius * trig.Sinf(theta) * trig.Sinf(phi))
  }

  /**
   * The 18 floats of cell (lat, lon): triangles (c1, c2, c3) and (c1, c3, c4) of the
   * corners c1 = (theta1, phi1), c2 = (theta2, phi1), c3 = (theta2, phi2), c4 = (theta1, phi2).
   */
  function CellFloats(trig: Trig, latSegments: int, lonSegments: int, lat: int, lon: int): (r: seq<real>)
    requires 0 <= lat < latSegments && 0 <= lon < lonSegments
    ensures |r| == 18
  {
    var theta1, theta2 := Theta(trig, latSegments, lat), Theta(trig, latSegments, lat + 1);
    var phi1, phi2 := Phi(trig, lonSegments, lon), Phi(trig, lonSegments, lon + 1);
    TwoTriangles(Corner(trig, theta1, phi1), Corner(trig, theta2, phi1), Corner(trig, theta2, phi2), Corner(trig, theta1, phi2))
  }

  /** The floats of the triangles (c1, c2, c3) and (c1, c3, c4) of a quad c1 c2 c3 c4. */
  function TwoTriangles(c1: Vec3, c2: Vec3, c3: Vec3, c4: Vec3): (r: seq<real>)
    ensures |r| == 18
  {
    [c1.x, c1.y, c1.z, c2.x, c2.y, c2.z, c3.x, c3.y, c3.z,
     c1.x, c1.y, c1.z, c3.x, c3.y, c3.z, c4.x, c4.y, c4.z]
  }

  /**
   * The six vertices of the quad's two triangles are c1, c2, c3, then c1 and c3 again, then
   * c4: the diagonal c1-c3 is shared by both triangles.
   */
  lemma TwoTrianglesVertices(c1: Vec3, c2: Vec3, c3: Vec3, c4: Vec3)
    ensures var r := TwoTriangles(c1, c2, c3, c4);
      && VertexAt(r, 0) == c1 && VertexAt(r, 1) == c2 && VertexAt(r, 2) == c3
      && VertexAt(r, 3) == VertexAt(r, 0) && VertexAt(r, 4) == VertexAt(r, 2) && VertexAt(r, 5) == c4
  {
  }

  lemma MulMono(a: int, b: int, d: int)
    requires a <= b && 0 < d
    ensures a * d <= b * d
  {
    assert b * d - a * d == (b - a) * d;
  }

  /** Quotient and remainder are the unique q, r with n == q * d + r and 0 <= r < d. */
  lemma DivModUnique(n: int, d: int, q: int, r: int)
    requires 0 < d && 0 <= r < d && n == q * d + r
    ensures n / d == q && n % d == r
  {
    var q' := n / d;
    if q' > q {
      MulMono(q + 1, q', d);
    } else if q' < q {
      MulMono(q' + 1, q, d);
    }
  }

  /** A flat cell index of a `latSegments` x `lonSegments` grid names a cell inside it. */
  lemma GridCell(latSegments: int, lonSegments: int, c: int)
    requires 0 <= latSegments && 0 <= lonSegments && 0 <= c < latSegments * lonSegments
    ensures 0 < lonSegments && 0 <= c / lonSegments < latSegments && 0 <= c % lonSegments < lonSegments
  {
    assert lonSegments != 0;
  }

  /** Cell (lat, lon) has the latitude-major flat index `lat * lonSegments + lon`. */
  lemma CellIndex(latSegments: int, lonSegments: int, lat: int, lon: int)
    requires 0 <= lat < latSegments && 0 <= lon < lonSegments
    ensures 0 <= lat * lonSegments + lon < latSegments * lonSegments
    ensures (lat * lonSegments + lon) / lonSegments == lat && (lat * lonSegments + lon) % lonSegments == lon
  {
    MulMono(lat + 1, latSegments, lonSegments);
    DivModUnique(lat * lonSegments + lon, lonSegments, lat, lon);
  }

  /** The concatenation `block(0) + block(1) + ... + block(k - 1)`. */
  function Blocks(block: int -> seq<real>, k: int): seq<real>
    decreases k
  {
    if k <= 0 then [] else Blocks(block, k - 1) + block(k - 1)
  }

  /** Concatenating `k` blocks of 18 floats gives 18 * k floats. */
  lemma {:induction false} BlocksLength(block: int -> seq<real>, k: int)
    requires 0 <= k
    requires forall c :: 0 <= c < k ==> |block(c)| == 18
    ensures |Blocks(block, k)| == 18 * k
    decreases k
  {
    if k > 0 {
      BlocksLength(block, k - 1);
    }
  }

  /** Appending more blocks leaves the concatenation of the first `j` blocks in place. */
  lemma {:induction false} BlocksPrefix(block: int -> seq<real>, k: int, j: int)
    requires 0 <= j <= k
    ensures |Blocks(block, j)| <= |Blocks(block, k)|
    ensures Blocks(block, k)[..|Blocks(block, j)|] == Blocks(block, j)
    decreases k
  {
    if j < k {
      BlocksPrefix(block, k - 1, j);
      var prefix := Blocks(block, k - 1);
      assert Blocks(block, k)[..|prefix|] == prefix;
    }
  }

  /** Cell number `c` of the grid in latitude-major order: cell (c / lonSegments, c % lonSegments). */
  function CellAt(trig: Trig, latSegments: int, lonSegments: int, c: int): (r: seq<real>)
    ensures 0 <= latSegments && 0 <= lonSegments && 0 <= c < latSegments * lonSegments ==> |r| == 18
  {
    if 0 <= latSegments && 0 <= lonSegments && 0 <= c < latSegments * lonSegments then
      GridCell(latSegments, lonSegments, c);
      CellFloats(trig, latSegments, lonSegments, c / lonSegments, c % lonSegments)
    else []
  }

  /** The grid's cells as a function of their flat index. */
  function CellBlock(trig: Trig, latSegments: int, lonSegments: int): int -> seq<real>
  {
    c => CellAt(trig, latSegments, lonSegments, c)
  }

  /** The first `k` cells of the grid, latitude-major. */
  function Cells(trig: Trig, latSegments: int, lonSegments: int, k: int): (r: seq<real>)
    requires 0 <= latSegments && 0 <= lonSegments && 0 <= k <= latSegments * lonSegments
    ensures |r| == 18 * k
  {
    BlocksLength(CellBlock(trig, latSegments, lonSegments), k);
    Blocks(CellBlock(trig, latSegments, lonSegments), k)
  }

  /** The whole buffer `generate_sphere` fills: every cell of the grid. */
  function SphereSoup(trig: Trig, latSegments: int, lonSegments: int): (r: seq<real>)
    requires 0 <= latSegments && 0 <= lonSegments
    ensures |r| == 3 * (latSegments * lonSegments * 6)
  {
    Cells(trig, latSegments, lonSegments, latSegments * lonSegments)
  }

  /** Offset of the first float of cell (lat, lon) in the buffer. */
  function CellStart(lonSegments: int, lat: int, lon: int): int
  {
    18 * (lat * lonSegments + lon)
  }

  /**
   * Layout: cell (lat, lon) occupies floats [18 * (lat * lonSegments + lon), ... + 18) of the
   * buffer, so cells are laid out latitude-major and never overlap.
   */
  lemma CellLayout(trig: Trig, latSegments: int, lonSegments: int, lat: int, lon: int)
    requires 0 <= lat < latSegments && 0 <= lon < lonSegments
    ensures CellStart(lonSegments, lat, lon) + 18 <= |SphereSoup(trig, latSegments, lonSegments)|
    ensures SphereSoup(trig, latSegments, lonSegments)[CellStart(lonSegments, lat, lon) .. CellStart(lonSegments, lat, lon) + 18]
         == CellFloats(trig, latSegments, lonSegments, lat, lon)
  {
    var c := lat * lonSegments + lon;
    CellsStep(trig, latSegments, lonSegments, c, lat, lon);
    BlocksPrefix(CellBlock(trig, latSegments, lonSegments), latSegments * lonSegments, c + 1);
    var upTo := Cells(trig, latSegments, lonSegments, c + 1);
    assert SphereSoup(trig, latSegments, lonSegments)[18 * c .. 18 * c + 18] == upTo[18 * c ..];
  }

  /**
   * Inside a cell, the fourth vertex repeats the first (corner 1) and the fifth repeats the
   * third (corner 3); corners 1 and 4 lie on latitude line theta1 and corners 2 and 3 on theta2.
   */
  lemma CellShape(trig: Trig, latSegments: int, lonSegments: int, lat: int, lon: int)
    requires 0 <= lat < latSegments && 0 <= lon < lonSegments
    ensures var r := CellFloats(trig, latSegments, lonSegments, lat, lon);
      && VertexAt(r, 3) == VertexAt(r, 0) && VertexAt(r, 4) == VertexAt(r, 2)
      && VertexAt(r, 0).y == VertexAt(r, 5).y == Radius * trig.Cosf(Theta(trig, latSegments, lat))
      && VertexAt(r, 1).y == VertexAt(r, 2).y == Radius * trig.Cosf(Theta(trig, latSegments, lat + 1))
  {
  }

  /**
   * Vertex sharing inside the buffer: in every cell (vertices 6c .. 6c + 5 for the cell's flat
   * index c) the fourth vertex is the first and the fifth is the third, and the two corners on
   * each latitude line have the same y.
   */
  lemma SharedVertices(trig: Trig, latSegments: int, lonSegments: int, lat: int, lon: int)
    requires 0 <= lat < latSegments && 0 <= lon < lonSegments
    ensures var s, v := SphereSoup(trig, latSegments, lonSegments), 6 * (lat * lonSegments + lon);
      && 0 <= v && 3 * (v + 6) <= |s|
      && VertexAt(s, v + 3) == VertexAt(s, v) && VertexAt(s, v + 4) == VertexAt(s, v + 2)
      && VertexAt(s, v).y == VertexAt(s, v + 5).y && VertexAt(s, v + 1).y == VertexAt(s, v + 2).y
  {
    var s, c := SphereSoup(trig, latSegments, lonSegments), lat * lonSegments + lon;
    var cell := CellFloats(trig, latSegments, lonSegments, lat, lon);
    CellLayout(trig, latSegments, lonSegments, lat, lon);
    CellShape(trig, latSegments, lonSegments, lat, lon);
    assert CellStart(lonSegments, lat, lon) == 3 * (6 * c);
    assert s[3 * (6 * c) .. 3 * (6 * c) + 18] == cell;
    SliceVertices(s, 6 * c, cell);
  }

  /** The vertices of an 18-float slice are the buffer's vertices at the slice's offset. */
  lemma SliceVertices(s: seq<real>, v: int, cell: seq<real>)
    requires 0 <= v && 3 * v + 18 <= |s| && s[3 * v .. 3 * v + 18] == cell
    ensures forall k :: 0 <= k < 6 ==> VertexAt(s, v + k) == VertexAt(cell, k)
  {
    forall k | 0 <= k < 6
      ensures VertexAt(s, v + k) == VertexAt(cell, k)
    {
      assert s[3 * (v + k)] == cell[3 * k];
      assert s[3 * (v + k) + 1] == cell[3 * k + 1];
      assert s[3 * (v + k) + 2] == cell[3 * k + 2];
    }
  }

  /** Degenerate grids: a zero segment count yields an empty buffer. */
  lemma EmptyGrid(trig: Trig, latSegments: int, lonSegments: int)
    requires 0 <= latSegments && 0 <= lonSegments
    requires latSegments == 0 || lonSegments == 0
    ensures SphereSoup(trig, latSegments, lonSegments) == []
  {
  }

  /**
   * With an ideal sine and cosine (sin^2 + cos^2 == 1 at the angles used), every corner lies
   * on the sphere of radius `Radius` around the origin.
   */
  lemma CornerOnSphere(trig: Trig, theta: real, phi: real)
    requires trig.Sinf(theta) * trig.Sinf(theta) + trig.Cosf(theta) * trig.Cosf(theta) == 1.0
    requires trig.Sinf(phi) * trig.Sinf(phi) + trig.Cosf(phi) * trig.Cosf(phi) == 1.0
    ensures SquaredLength(Corner(trig, theta, phi)) == Radius * Radius
  {
    var st, ct, sp, cp := trig.Sinf(theta), trig.Cosf(theta), trig.Sinf(phi), trig.Cosf(phi);
    calc {
      SquaredLength(Corner(trig, theta, phi));
      (Radius * st * cp) * (Radius * st * cp) + (Radius * ct) * (Radius * ct) + (Radius * st * sp) * (Radius * st * sp);
      Radius * Radius * (st * st * (cp * cp + sp * sp) + ct * ct);
      Radius * Radius * (st * st + ct * ct);
      Radius * Radius;
    }
  }

  /**
   * A single cell spans the whole sphere: theta runs 0 to pi and phi 0 to 2 pi, so the
   * six vertices are the corners at those angles.
   */
  lemma SingleCellSphere(trig: Trig)
    ensures var c1, c2 := Corner(trig, 0.0, 0.0), Corner(trig, trig.pi, 0.0);
      var c3, c4 := Corner(trig, trig.pi, 2.0 * trig.pi), Corner(trig, 0.0, 2.0 * trig.pi);
      SphereSoup(trig, 1, 1) == Coords(c1) + Coords(c2) + Coords(c3) + Coords(c1) + Coords(c3) + Coords(c4)
  {
    var c1, c2 := Corner(trig, 0.0, 0.0), Corner(trig, trig.pi, 0.0);
    var c3, c4 := Corner(trig, trig.pi, 2.0 * trig.pi), Corner(trig, 0.0, 2.0 * trig.pi);
    assert Theta(trig, 1, 0) == 0.0 && Theta(trig, 1, 1) == trig.pi;
    assert Phi(trig, 1, 0) == 0.0 && Phi(trig, 1, 1) == 2.0 * trig.pi;
    CellsStep(trig, 1, 1, 0, 0, 0);
    assert SphereSoup(trig, 1, 1) == TwoTriangles(c1, c2, c3, c4);
    TwoTrianglesCoords([], c1, c2, c3, c4);
  }

  /** The cell after the first `k == lat * lonSegments + lon` cells is cell (lat, lon). */
  lemma CellsStep(trig: Trig, latSegments: int, lonSegments: int, k: int, lat: int, lon: int)
    requires 0 <= lat < latSegments && 0 <= lon < lonSegments && k == lat * lonSegments + lon
    ensures 0 <= k < latSegments * lonSegments
    ensures Cells(trig, latSegments, lonSegments, k + 1)
         == Cells(trig, latSegments, lonSegments, k) + CellFloats(trig, latSegments, lonSegments, lat, lon)
  {
    CellIndex(latSegments, lonSegments, lat, lon);
  }

  /** Appending a quad's six vertices one at a time gives its two triangles. */
  lemma TwoTrianglesCoords(done: seq<real>, c1: Vec3, c2: Vec3, c3: Vec3, c4: Vec3)
    ensures done + Coords(c1) + Coords(c2) + Coords(c3) + Coords(c1) + Coords(c3) + Coords(c4)
         == done + TwoTriangles(c1, c2, c3, c4)
  {
  }

  /**
   * One source line `vertices[idx++] = x; vertices[idx++] = y; vertices[idx++] = z;`:
   * stores a vertex at the write index and returns the advanced index.
   */
  method EmitVertex(vertices: array<real>, idx: int, v: Vec3) returns (next: int)
    requires 0 <= idx && idx + 3 <= vertices.Length
    modifies vertices
    ensures next == idx + 3
    ensures vertices[..next] == old(vertices[..idx]) + Coords(v)
    ensures forall i | next <= i < vertices.Length :: vertices[i] == old(vertices[i])
  {
    vertices[idx] := v.x;
    vertices[idx + 1] := v.y;
    vertices[idx + 2] := v.z;
    next := idx + 3;
  }

  /** Lines 85-92 of the loop body: the cell's two triangles (c1, c2, c3) and (c1, c3, c4). */
  method EmitCell(vertices: array<real>, idx: int, c1: Vec3, c2: Vec3, c3: Vec3, c4: Vec3) returns (next: int)
    requires 0 <= idx && idx + 18 <= vertices.Length
    modifies vertices
    ensures next == idx + 18
    ensures vertices[..next] == old(vertices[..idx]) + TwoTriangles(c1, c2, c3, c4)
    ensures forall i | next <= i < vertices.Length :: vertices[i] == old(vertices[i])
  {
    ghost var done := vertices[..idx];
    next := EmitVertex(vertices, idx, c1);
    next := EmitVertex(vertices, next, c2);
    next := EmitVertex(vertices, next, c3);

    next := EmitVertex(vertices, next, c1);
    next := EmitVertex(vertices, next, c3);
    next := EmitVertex(vertices, next, c4);
    TwoTrianglesCoords(done, c1, c2, c3, c4);
  }

  /** Cells of latitude band `lat` end where band `lat + 1` starts, inside the grid. */
  lemma RowBound(lat: int, latSegments: int, lonSegments: int)
    requires 0 <= lat < latSegments && 0 <= lonSegments
    ensures 0 <= lat * lonSegments
    ensures lat * lonSegments + lonSegments == (lat + 1) * lonSegments <= latSegments * lonSegments
  {
    if lonSegments > 0 {
      MulMono(0, lat, lonSegments);
      MulMono(lat + 1, latSegments, lonSegments);
    }
  }

  /**
   * `generate_sphere`: allocates `latSegments * lonSegments * 6 * 3` floats and fills them with
   * two nested loops through a running index. `allocOk` is whether `malloc` succeeded;
   * `outVertexCount` is the prior value of `*out_vertex_count`, and `vertexCount` its value
   * afterwards (left as it was when allocation fails and NULL is returned).
   */
  method GenerateSphere(trig: Trig, latSegments: int, lonSegments: int, outVertexCount: int, allocOk: bool)
    returns (vertices: array?<real>, vertexCount: int)
    requires 0 <= latSegments && 0 <= lonSegments
    requires latSegments * lonSegments * 6 * 3 <= IntMax
    ensures !allocOk ==> vertices == null && vertexCount == outVertexCount
    ensures allocOk ==> vertices != null && fresh(vertices)
    ensures allocOk ==> vertexCount == latSegments * lonSegments * 6 && vertices.Length == vertexCount * 3
    ensures allocOk ==> vertices[..] == SphereSoup(trig, latSegments, lonSegments)
  {
    var count := latSegments * lonSegments * 6;
    if !allocOk {
      return null, outVertexCount;
    }
    vertices := new real[count * 3];

    var idx := 0;
    ghost var filled := 0;  // cells written so far
    for lat := 0 to latSegments
      invariant filled == lat * lonSegments <= latSegments * lonSegments
      invariant idx == 18 * filled
      invariant vertices[..idx] == Cells(trig, latSegments, lonSegments, filled)
    {
      ghost var rowStart := filled;
      RowBound(lat, latSegments, lonSegments);
      var theta1 := Theta(trig, latSegments, lat);
      var theta2 := Theta(trig, latSegments, lat + 1);

      for lon := 0 to lonSegments
        invariant filled == rowStart + lon <= rowStart + lonSegments <= latSegments * lonSegments
        invariant idx == 18 * filled
        invariant vertices[..idx] == Cells(trig, latSegments, lonSegments, filled)
      {
        var phi1 := Phi(trig, lonSegments, lon);
        var phi2 := Phi(trig, lonSegments, lon + 1);

        var c1 := Corner(trig, theta1, phi1);
        var c2 := Corner(trig, theta2, phi1);
        var c3 := Corner(trig, theta2, phi2);
        var c4 := Corner(trig, theta1, phi2);

        CellsStep(trig, latSegments, lonSegments, filled, lat, lon);
        idx := EmitCell(vertices, idx, c1, c2, c3, c4);
        assert TwoTriangles(c1, c2, c3, c4) == CellFloats(trig, latSegments, lonSegments, lat, lon);
        filled := filled + 1;
      }
    }
    assert vertices[..] == vertices[..idx];
    vertexCount := count;
  }
}

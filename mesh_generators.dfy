/**
 * The UV-sphere generator: a north pole, nStacks - 1 rings of nSlices
 * vertices and a south pole, joined by a top cap fan, two triangles per
 * quad between consecutive rings, and a bottom cap fan. Vertex positions
 * (sines and cosines of the polar and azimuth angles, the frame and the
 * radius) are abstracted to the pair of angle steps that determines them.
 */
module MeshGenerators {

  /** A triangle's three vertex ids. */
  datatype Index3 = Index3(a: int, b: int, c: int)

  predicate HasVertex(t: Index3, v: int) {
    t.a == v || t.b == v || t.c == v
  }

  /**
   * A generated vertex, named by its angle steps: polar angle
   * pi * polarStep / nStacks and azimuth 2 pi * azimuthStep / nSlices.
   */
  datatype SphereVertex = SphereVertex(polarStep: int, azimuthStep: int)

  /** The mesh being appended to: vertices, triangles and one group id per triangle. */
  class MeshSink {
    var vertices: seq<SphereVertex>
    var triangles: seq<Index3>
    var groups: seq<int>

    predicate Valid()
      reads this
    {
      |groups| == |triangles|
    }

    constructor ()
      ensures vertices == [] && triangles == [] && groups == [] && Valid()
    {
      vertices, triangles, groups := [], [], [];
    }

    method AppendVertex(v: SphereVertex) returns (vid: int)
      modifies this`vertices
      ensures vertices == old(vertices) + [v] && vid == |old(vertices)|
    {
      vid := |vertices|;
      vertices := vertices + [v];
    }

    method AppendTriangle(t: Index3, gid: int) returns (tid: int)
      requires Valid()
      modifies this`triangles, this`groups
      ensures Valid() && triangles == old(triangles) + [t] && groups == old(groups) + [gid]
      ensures tid == |old(triangles)|
    {
      tid := |triangles|;
      triangles := triangles + [t];
      groups := groups + [gid];
    }
  }

  function Clamp(n: int): nat {
    if n > 0 then n else 0
  }

  /** n copies of the group id g. */
  function Filled(n: nat, g: int): (r: seq<int>)
    ensures |r| == n && forall k :: 0 <= k < n ==> r[k] == g
  {
    seq(n, _ => g)
  }

  function Zeros(n: nat): (z: seq<int>)
    ensures |z| == n && forall k :: 0 <= k < n ==> z[k] == 0
  {
    Filled(n, 0)
  }

  /** The slice after i, wrapping to 0: (i + 1) % s. */
  function NextSlice(i: int, s: int): (r: int)
    requires 0 <= i < s
    ensures 0 <= r < s && r == (i + 1) % s
  {
    if i + 1 < s then i + 1 else 0
  }

  // ---------------------------------------------------------------------
  // What Generate appends

  /** Ring j (0-based): polar step j + 1, every azimuth step in order. */
  function Ring(s: int, j: int): (r: seq<SphereVertex>)
    ensures |r| == Clamp(s)
  {
    seq(Clamp(s), i => SphereVertex(j + 1, i))
  }

  /** The first j rings. */
  function RingsUpTo(s: int, j: nat): (r: seq<SphereVertex>)
    ensures |r| == j * Clamp(s)
  {
    if j == 0 then [] else RingsUpTo(s, j - 1) + Ring(s, j - 1)
  }

  function SphereVertices(s: int, st: int): seq<SphereVertex> {
    [SphereVertex(0, 0)] + RingsUpTo(s, Clamp(st - 1)) + [SphereVertex(st, 0)]
  }

  /** Top cap triangle i: the north pole, the next slice, slice i. */
  function TopTri(s: int, i: int): Index3
    requires 0 <= i < s
  {
    Index3(0, NextSlice(i, s) + 1, i + 1)
  }

  function TopCap(s: int): (r: seq<Index3>)
    ensures |r| == Clamp(s)
  {
    seq(Clamp(s), i requires 0 <= i < Clamp(s) => TopTri(s, i))
  }

  /**
   * The quad between ring j slices i and i+1 and ring j+1 slices i and i+1,
   * as (a, a1, b1) and (a, b1, b).
   */
  function QuadTris(s: int, j: int, i: int): seq<Index3>
    requires 0 <= i < s
  {
    var a := j * s + 1 + i;
    var a1 := j * s + 1 + NextSlice(i, s);
    var b := (j + 1) * s + 1 + i;
    var b1 := (j + 1) * s + 1 + NextSlice(i, s);
    [Index3(a, a1, b1), Index3(a, b1, b)]
  }

  /** The triangles of the first i quads of row j. */
  function RowPrefix(s: int, j: int, i: nat): (r: seq<Index3>)
    requires i <= Clamp(s)
    ensures |r| == 2 * i
  {
    if i == 0 then [] else RowPrefix(s, j, i - 1) + QuadTris(s, j, i - 1)
  }

  /** The triangles of the first j rows of quads. */
  function BodyPrefix(s: int, j: nat): (r: seq<Index3>)
    ensures |r| == 2 * Clamp(s) * j
  {
    if j == 0 then [] else BodyPrefix(s, j - 1) + RowPrefix(s, j - 1, Clamp(s))
  }

  /** Bottom cap triangle i: the last vertex, slice i and the next slice of the last ring. */
  function BottomTri(s: int, st: int, nv: int, i: int): Index3
    requires 0 <= i < s
  {
    Index3(nv - 1, i + s * (st - 2) + 1, NextSlice(i, s) + s * (st - 2) + 1)
  }

  function BottomCap(s: int, st: int, nv: int): (r: seq<Index3>)
    ensures |r| == Clamp(s)
  {
    seq(Clamp(s), i requires 0 <= i < Clamp(s) => BottomTri(s, st, nv, i))
  }

  /** Everything Generate appends when the mesh ends up with nv vertices. */
  function SphereTriangles(s: int, st: int, nv: int): seq<Index3> {
    TopCap(s) + BodyPrefix(s, Clamp(st - 2)) + BottomCap(s, st, nv)
  }

  lemma SameGroups(n: nat, m: nat, g: int)
    ensures Filled(n, g) + Filled(m, g) == Filled(n + m, g)
  {
  }

  lemma AppendThree<T>(s0: seq<T>, a: seq<T>, b: seq<T>, c: seq<T>)
    ensures s0 + a + b + c == s0 + (a + b + c)
  {
  }

  /** Three runs of group g appended one after another make one run. */
  lemma ThreeGroups(g0: seq<int>, a: nat, b: nat, c: nat, g: int)
    ensures g0 + Filled(a, g) + Filled(b, g) + Filled(c, g) == g0 + Filled(a + b + c, g)
  {
    SameGroups(a, b, g);
    SameGroups(a + b, c, g);
    assert Filled(a, g) + Filled(b, g) + Filled(c, g) == Filled(a + b + c, g);
  }

  // ---------------------------------------------------------------------
  // Properties of what Generate appends

  /** 2 + (nStacks - 1) * nSlices vertices and 2 * nSlices * (nStacks - 1) triangles. */
  lemma SphereCounts(s: int, st: int, nv: int)
    ensures |SphereVertices(s, st)| == 2 + Clamp(st - 1) * Clamp(s)
    ensures |SphereTriangles(s, st, nv)| == Clamp(s) + 2 * Clamp(s) * Clamp(st - 2) + Clamp(s)
    ensures s >= 1 && st >= 2 ==> |SphereTriangles(s, st, nv)| == 2 * s * (st - 1)
  {
    if s >= 1 && st >= 2 {
      assert 2 * s * (st - 2) + 2 * s == 2 * s * (st - 1);
    }
  }

  lemma MulLe(x: int, y: int, s: nat)
    requires x <= y
    ensures x * s <= y * s
  {
    assert y * s - x * s == (y - x) * s;
  }

  /** Vertex j * s + 1 + i of an empty mesh is slice i of ring j. */
  lemma {:induction false} RingVertexId(s: int, j: nat, q: nat, i: nat)
    requires 0 <= i < s && q < j
    ensures q * s + i < |RingsUpTo(s, j)| && RingsUpTo(s, j)[q * s + i] == SphereVertex(q + 1, i)
  {
    var prev := RingsUpTo(s, j - 1);
    assert RingsUpTo(s, j) == prev + Ring(s, j - 1);
    assert |prev| == (j - 1) * s;
    if q == j - 1 {
      assert RingsUpTo(s, j)[q * s + i] == Ring(s, j - 1)[i];
    } else {
      RingVertexId(s, j - 1, q, i);
      assert RingsUpTo(s, j)[q * s + i] == prev[q * s + i];
    }
    MulLe(q + 1, j, s);
    assert q * s + i < (q + 1) * s;
  }

  /** Where each generated vertex sits: the poles at the ends, ring j slice i at j * s + 1 + i. */
  lemma SphereVertexIds(s: int, st: int, j: int, i: int)
    requires s >= 1 && st >= 2 && 0 <= j < st - 1 && 0 <= i < s
    ensures var vs := SphereVertices(s, st);
      |vs| == 2 + (st - 1) * s && vs[0] == SphereVertex(0, 0) && vs[|vs| - 1] == SphereVertex(st, 0)
      && At(vs, j * s + 1 + i, SphereVertex(j + 1, i))
  {
    var vs := SphereVertices(s, st);
    RingVertexId(s, st - 1, j, i);
    assert vs[j * s + 1 + i] == RingsUpTo(s, st - 1)[j * s + i];
  }

  /** Vertex id names an existing vertex, and that vertex is v. */
  predicate At(vs: seq<SphereVertex>, id: int, v: SphereVertex) {
    0 <= id < |vs| && vs[id] == v
  }

  /** The top cap fans ring 0 around the north pole, the bottom cap the last ring around the south pole. */
  lemma CapCorners(s: int, st: int, i: int)
    requires s >= 1 && st >= 2 && 0 <= i < s
    ensures var vs := SphereVertices(s, st); var n := NextSlice(i, s);
      At(vs, TopTri(s, i).a, SphereVertex(0, 0))
      && At(vs, TopTri(s, i).b, SphereVertex(1, n)) && At(vs, TopTri(s, i).c, SphereVertex(1, i))
    ensures var vs := SphereVertices(s, st); var n := NextSlice(i, s);
      At(vs, BottomTri(s, st, |vs|, i).a, SphereVertex(st, 0))
      && At(vs, BottomTri(s, st, |vs|, i).b, SphereVertex(st - 1, i))
      && At(vs, BottomTri(s, st, |vs|, i).c, SphereVertex(st - 1, n))
  {
    var n := NextSlice(i, s);
    SphereVertexIds(s, st, 0, i);
    SphereVertexIds(s, st, 0, n);
    SphereVertexIds(s, st, st - 2, i);
    SphereVertexIds(s, st, st - 2, n);
    assert s * (st - 2) == (st - 2) * s;
  }

  /** Quad (j, i) has corners slice i and the next slice of rings j and j + 1. */
  lemma QuadCorners(s: int, st: int, j: int, i: int)
    requires s >= 1 && 0 <= j < st - 2 && 0 <= i < s
    ensures var vs := SphereVertices(s, st); var n := NextSlice(i, s); var q := QuadTris(s, j, i);
      At(vs, q[0].a, SphereVertex(j + 1, i)) && At(vs, q[0].b, SphereVertex(j + 1, n))
      && At(vs, q[0].c, SphereVertex(j + 2, n)) && At(vs, q[1].c, SphereVertex(j + 2, i))
  {
    var n := NextSlice(i, s);
    SphereVertexIds(s, st, j, i);
    SphereVertexIds(s, st, j, n);
    SphereVertexIds(s, st, j + 1, i);
    SphereVertexIds(s, st, j + 1, n);
  }

  lemma MulStep(j: int, s: int)
    ensures (j + 1) * s == j * s + s
  {
  }

  predicate InRange(t: Index3, n: int) {
    0 <= t.a < n && 0 <= t.b < n && 0 <= t.c < n
  }

  predicate AllInRange(ts: seq<Index3>, n: int) {
    forall k :: 0 <= k < |ts| ==> InRange(ts[k], n)
  }

  lemma QuadInRange(s: int, st: int, j: int, i: int)
    requires 0 <= i < s && 0 <= j < st - 2
    ensures AllInRange(QuadTris(s, j, i), 2 + (st - 1) * s)
  {
    MulLe(j + 2, st - 1, s);
    MulLe(0, j, s);
    assert (j + 1) * s + s == (j + 2) * s;
  }

  lemma {:induction false} RowInRange(s: int, st: int, j: int, i: nat)
    requires i <= Clamp(s) && 0 <= j < st - 2
    ensures AllInRange(RowPrefix(s, j, i), 2 + (st - 1) * s)
  {
    if i > 0 {
      RowInRange(s, st, j, i - 1);
      QuadInRange(s, st, j, i - 1);
    }
  }

  lemma {:induction false} BodyInRange(s: int, st: int, j: nat)
    requires j <= st - 2
    ensures AllInRange(BodyPrefix(s, j), 2 + (st - 1) * s)
  {
    if j > 0 {
      BodyInRange(s, st, j - 1);
      RowInRange(s, st, j - 1, Clamp(s));
    }
  }

  /** On an empty mesh every generated triangle refers to a generated vertex. */
  lemma IndicesInRange(s: int, st: int)
    requires s >= 1 && st >= 2
    ensures var nv := |SphereVertices(s, st)|; AllInRange(SphereTriangles(s, st, nv), nv)
  {
    var nv := |SphereVertices(s, st)|;
    assert nv == 2 + (st - 1) * s;
    MulLe(1, st - 1, s);
    MulLe(0, st - 2, s);
    assert s * (st - 2) + s == (st - 1) * s;
    BodyInRange(s, st, Clamp(st - 2));
    assert AllInRange(TopCap(s), nv);
    assert AllInRange(BottomCap(s, st, nv), nv);
  }

  /** Each consecutive pair of triangles is one quad split along its diagonal a - b1. */
  predicate PairedDiagonals(ts: seq<Index3>) {
    |ts| % 2 == 0
    && forall q :: 0 <= q < |ts| / 2 ==> ts[2 * q].a == ts[2 * q + 1].a && ts[2 * q].c == ts[2 * q + 1].b
  }

  lemma PairedConcat(x: seq<Index3>, y: seq<Index3>)
    requires PairedDiagonals(x) && PairedDiagonals(y)
    ensures PairedDiagonals(x + y)
  {
    var z := x + y;
    forall q | 0 <= q < |z| / 2
      ensures z[2 * q].a == z[2 * q + 1].a && z[2 * q].c == z[2 * q + 1].b
    {
      if q < |x| / 2 {
        assert z[2 * q] == x[2 * q] && z[2 * q + 1] == x[2 * q + 1];
      } else {
        var r := q - |x| / 2;
        assert z[2 * q] == y[2 * r] && z[2 * q + 1] == y[2 * r + 1];
      }
    }
  }

  lemma {:induction false} RowPaired(s: int, j: int, i: nat)
    requires i <= Clamp(s)
    ensures PairedDiagonals(RowPrefix(s, j, i))
  {
    if i > 0 {
      RowPaired(s, j, i - 1);
      PairedConcat(RowPrefix(s, j, i - 1), QuadTris(s, j, i - 1));
    }
  }

  /** The body is a run of quads, each split into two triangles sharing its diagonal. */
  lemma {:induction false} BodyPaired(s: int, j: nat)
    ensures PairedDiagonals(BodyPrefix(s, j))
  {
    if j > 0 {
      BodyPaired(s, j - 1);
      RowPaired(s, j - 1, Clamp(s));
      PairedConcat(BodyPrefix(s, j - 1), RowPrefix(s, j - 1, Clamp(s)));
    }
  }

  // ---------------------------------------------------------------------
  // The generator

  class SphereGenerator {
    var radius: real
    var nSlices: int
    var nStacks: int

    /** Radius 1, 8 slices, 8 stacks. */
    constructor ()
      ensures radius == 1.0 && nSlices == 8 && nStacks == 8
    {
      radius := 1.0;
      nSlices := 8;
      nStacks := 8;
    }

    /**
     * Appends the sphere's vertices and triangles to the mesh, every
     * triangle in group 0.
     */
    method Generate(mesh: MeshSink)
      requires mesh.Valid()
      modifies mesh
      ensures mesh.Valid()
      ensures mesh.vertices == old(mesh.vertices) + SphereVertices(nSlices, nStacks)
      ensures mesh.triangles == old(mesh.triangles) + SphereTriangles(nSlices, nStacks, |mesh.vertices|)
      ensures mesh.groups == old(mesh.groups) + Zeros(|mesh.triangles| - |old(mesh.triangles)|)
    {
      var gID := 0;
      AppendVertices(mesh);
      ghost var v1 := mesh.vertices;
      ghost var t0, g0 := mesh.triangles, mesh.groups;
      AppendTopCap(mesh, gID);
      ghost var t1, g1 := mesh.triangles, mesh.groups;
      AppendBody(mesh, gID);
      ghost var t2, g2 := mesh.triangles, mesh.groups;
      var nVertices := |mesh.vertices|;
      AppendBottomCap(mesh, gID, nVertices);
      assert mesh.vertices == v1;
      ghost var top, body, bottom := TopCap(nSlices), BodyPrefix(nSlices, Clamp(nStacks - 2)), BottomCap(nSlices, nStacks, nVertices);
      assert t1 == t0 + top && t2 == t1 + body && mesh.triangles == t2 + bottom;
      AppendThree(t0, top, body, bottom);
      assert g0 == old(mesh.groups);
      assert mesh.groups == g0 + Filled(|t1| - |t0|, 0) + Filled(|t2| - |t1|, 0) + Filled(|mesh.triangles| - |t2|, 0);
      ThreeGroups(g0, |t1| - |t0|, |t2| - |t1|, |mesh.triangles| - |t2|, 0);
      assert Zeros(|mesh.triangles| - |t0|) == Filled(|mesh.triangles| - |t0|, 0);
    }

    method AppendVertices(mesh: MeshSink)
      modifies mesh`vertices
      ensures mesh.vertices == old(mesh.vertices) + SphereVertices(nSlices, nStacks)
    {
      ghost var v0 := mesh.vertices;
      var _ := mesh.AppendVertex(SphereVertex(0, 0));
      var j := 0;
      while j < nStacks - 1
        invariant 0 <= j <= Clamp(nStacks - 1)
        invariant mesh.vertices == v0 + [SphereVertex(0, 0)] + RingsUpTo(nSlices, j)
      {
        var i := 0;
        while i < nSlices
          invariant 0 <= i <= Clamp(nSlices)
          invariant mesh.vertices == v0 + [SphereVertex(0, 0)] + RingsUpTo(nSlices, j) + seq(i, k => SphereVertex(j + 1, k))
        {
          var _ := mesh.AppendVertex(SphereVertex(j + 1, i));
          assert seq(i + 1, k => SphereVertex(j + 1, k)) == seq(i, k => SphereVertex(j + 1, k)) + [SphereVertex(j + 1, i)];
          i := i + 1;
        }
        assert seq(i, k => SphereVertex(j + 1, k)) == Ring(nSlices, j);
        j := j + 1;
      }
      var _ := mesh.AppendVertex(SphereVertex(nStacks, 0));
    }

    method AppendTopCap(mesh: MeshSink, gID: int)
      requires mesh.Valid()
      modifies mesh`triangles, mesh`groups
      ensures mesh.Valid() && mesh.triangles == old(mesh.triangles) + TopCap(nSlices)
      ensures mesh.groups == old(mesh.groups) + Filled(|mesh.triangles| - |old(mesh.triangles)|, gID)
    {
      ghost var t0, g0 := mesh.triangles, mesh.groups;
      var i := 0;
      while i < nSlices
        invariant 0 <= i <= Clamp(nSlices) && mesh.Valid()
        invariant mesh.triangles == t0 + TopCap(nSlices)[..i]
        invariant mesh.groups == g0 + Filled(i, gID)
      {
        var a := i + 1;
        var b := (i + 1) % nSlices + 1;
        var _ := mesh.AppendTriangle(Index3(0, b, a), gID);
        assert TopCap(nSlices)[..i + 1] == TopCap(nSlices)[..i] + [TopTri(nSlices, i)];
        assert Filled(i + 1, gID) == Filled(i, gID) + [gID];
        i := i + 1;
      }
      assert TopCap(nSlices)[..i] == TopCap(nSlices);
    }

    method AppendBody(mesh: MeshSink, gID: int)
      requires mesh.Valid()
      modifies mesh`triangles, mesh`groups
      ensures mesh.Valid() && mesh.triangles == old(mesh.triangles) + BodyPrefix(nSlices, Clamp(nStacks - 2))
      ensures mesh.groups == old(mesh.groups) + Filled(|mesh.triangles| - |old(mesh.triangles)|, gID)
    {
      ghost var t0, g0 := mesh.triangles, mesh.groups;
      var j := 0;
      while j < nStacks - 2
        invariant 0 <= j <= Clamp(nStacks - 2) && mesh.Valid()
        invariant mesh.triangles == t0 + BodyPrefix(nSlices, j)
        invariant mesh.groups == g0 + Filled(|mesh.triangles| - |t0|, gID)
      {
        ghost var n := |mesh.triangles| - |t0|;
        AppendQuadRow(mesh, gID, j);
        SameGroups(n, 2 * Clamp(nSlices), gID);
        j := j + 1;
      }
    }

    /** The two triangles of every quad between rings j and j + 1. */
    method AppendQuadRow(mesh: MeshSink, gID: int, j: int)
      requires mesh.Valid()
      modifies mesh`triangles, mesh`groups
      ensures mesh.Valid() && mesh.triangles == old(mesh.triangles) + RowPrefix(nSlices, j, Clamp(nSlices))
      ensures mesh.groups == old(mesh.groups) + Filled(2 * Clamp(nSlices), gID)
    {
      ghost var t0, g0 := mesh.triangles, mesh.groups;
      var aStart := j * nSlices + 1;
      var bStart := (j + 1) * nSlices + 1;
      var i := 0;
      while i < nSlices
        invariant 0 <= i <= Clamp(nSlices) && mesh.Valid()
        invariant mesh.triangles == t0 + RowPrefix(nSlices, j, i)
        invariant mesh.groups == g0 + Filled(2 * i, gID)
      {
        var a := aStart + i;
        var a1 := aStart + (i + 1) % nSlices;
        var b := bStart + i;
        var b1 := bStart + (i + 1) % nSlices;
        var t1 := mesh.AppendTriangle(Index3(a, a1, b1), gID);
        var t2 := mesh.AppendTriangle(Index3(a, b1, b), gID);
        assert RowPrefix(nSlices, j, i + 1) == RowPrefix(nSlices, j, i) + [Index3(a, a1, b1), Index3(a, b1, b)];
        SameGroups(2 * i, 2, gID);
        i := i + 1;
      }
    }

    method AppendBottomCap(mesh: MeshSink, gID: int, nVertices: int)
      requires mesh.Valid()
      modifies mesh`triangles, mesh`groups
      ensures mesh.Valid() && mesh.triangles == old(mesh.triangles) + BottomCap(nSlices, nStacks, nVertices)
      ensures mesh.groups == old(mesh.groups) + Filled(|mesh.triangles| - |old(mesh.triangles)|, gID)
    {
      ghost var t0, g0 := mesh.triangles, mesh.groups;
      var i := 0;
      while i < nSlices
        invariant 0 <= i <= Clamp(nSlices) && mesh.Valid()
        invariant mesh.triangles == t0 + BottomCap(nSlices, nStacks, nVertices)[..i]
        invariant mesh.groups == g0 + Filled(i, gID)
      {
        var a := i + nSlices * (nStacks - 2) + 1;
        var b := (i + 1) % nSlices + nSlices * (nStacks - 2) + 1;
        var _ := mesh.AppendTriangle(Index3(nVertices - 1, a, b), gID);
        assert BottomCap(nSlices, nStacks, nVertices)[..i + 1]
          == BottomCap(nSlices, nStacks, nVertices)[..i] + [BottomTri(nSlices, nStacks, nVertices, i)];
        assert Filled(i + 1, gID) == Filled(i, gID) + [gID];
        i := i + 1;
      }
      assert BottomCap(nSlices, nStacks, nVertices)[..i] == BottomCap(nSlices, nStacks, nVertices);
    }
  }

  /** The default generator on an empty mesh: 58 vertices and 112 triangles, all in group 0. */
  method DefaultSphere() returns (nv: int, nt: int, groups: seq<int>)
    ensures nv == 58 && nt == 112 && groups == Zeros(112)
  {
    var gen := new SphereGenerator();
    var mesh := new MeshSink();
    gen.Generate(mesh);
    SphereCounts(8, 8, |mesh.vertices|);
    nv, nt, groups := |mesh.vertices|, |mesh.triangles|, mesh.groups;
  }
}

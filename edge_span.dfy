/**
 * EdgeSpan: an open chain of mesh edges, stored as its N+1 vertices and N
 * edges (edge i joins vertex i and vertex i+1). Parts of the class are a
 * half-finished translation from C#; the model follows the evident intent
 * and turns each exception into an error value.
 */
module EdgeSpans {
  import opened G3Types
  import opened MeshModel
  import opened EdgeLoops

  /** The edge from vertex i to vertex i+1 of an open path, or InvalidID. */
  function PathEdgeAt(mesh: Mesh, vs: seq<int>, i: int): int
    requires 0 <= i < |vs| - 1
  {
    FindEdge(mesh, vs[i], vs[i + 1])
  }

  /** The edges between consecutive vertices of an open path (InvalidID where there is none). */
  function PathEdges(mesh: Mesh, vs: seq<int>): (es: seq<int>)
    requires |vs| >= 1
    ensures |es| == |vs| - 1
  {
    seq(|vs| - 1, i requires 0 <= i < |vs| - 1 => PathEdgeAt(mesh, vs, i))
  }

  /** Every vertex of the path but the last is joined to the next by an edge. */
  predicate PathConnected(mesh: Mesh, vs: seq<int>) {
    forall i :: 0 <= i < |vs| - 1 ==> PathEdgeAt(mesh, vs, i) != InvalidID
  }

  /**
   * The vertices FromEdges recovers: the shared vertex between consecutive
   * edges inside, the far ends of the first and last edges at the two ends,
   * and the stored endpoints of a lone edge.
   */
  function SpanVerticesFromEdges(mesh: Mesh, edges: seq<int>): (vs: seq<int>)
    requires |edges| >= 1 && ValidEdges(mesh, edges)
    ensures |vs| == |edges| + 1
  {
    var n := |edges|;
    if n == 1 then [GetEdgeV(mesh, edges[0]).x, GetEdgeV(mesh, edges[0]).y]
    else
      seq(n + 1, i requires 0 <= i <= n =>
        if i == 0 then
          FindEdgeOtherV(GetEdgeV(mesh, edges[0]), FindSharedEdgeV(GetEdgeV(mesh, edges[0]), GetEdgeV(mesh, edges[1])))
        else if i == n then
          FindEdgeOtherV(GetEdgeV(mesh, edges[n - 1]), FindSharedEdgeV(GetEdgeV(mesh, edges[n - 2]), GetEdgeV(mesh, edges[n - 1])))
        else
          FindSharedEdgeV(GetEdgeV(mesh, edges[i - 1]), GetEdgeV(mesh, edges[i])))
  }

  /** Once the interior vertices are the shared ones, setting the two far ends gives the span's vertices. */
  lemma InteriorVerticesComplete(mesh: Mesh, edges: seq<int>, vertices: seq<int>)
    requires |edges| >= 2 && ValidEdges(mesh, edges) && |vertices| == |edges| + 1
    requires forall j :: 1 <= j < |edges| ==>
      vertices[j] == FindSharedEdgeV(GetEdgeV(mesh, edges[j - 1]), GetEdgeV(mesh, edges[j]))
    ensures var n := |edges|;
      vertices[0 := FindEdgeOtherV(GetEdgeV(mesh, edges[0]), vertices[1])]
              [n := FindEdgeOtherV(GetEdgeV(mesh, edges[n - 1]), vertices[n - 1])]
      == SpanVerticesFromEdges(mesh, edges)
  {
    var n := |edges|;
    var a := vertices[0 := FindEdgeOtherV(GetEdgeV(mesh, edges[0]), vertices[1])]
                     [n := FindEdgeOtherV(GetEdgeV(mesh, edges[n - 1]), vertices[n - 1])];
    var b := SpanVerticesFromEdges(mesh, edges);
    forall i | 0 <= i <= n ensures a[i] == b[i] {
      if i == 0 {
        assert a[0] == FindEdgeOtherV(GetEdgeV(mesh, edges[0]), vertices[1]);
      } else if i == n {
        assert a[n] == FindEdgeOtherV(GetEdgeV(mesh, edges[n - 1]), vertices[n - 1]);
      } else {
        assert a[i] == vertices[i];
      }
    }
  }

  /** Edge i of es joins vertex i and vertex i+1. */
  predicate PathJoinsAt(mesh: Mesh, vs: seq<int>, es: seq<int>, i: int)
    requires 0 <= i < |es| && |vs| == |es| + 1 && IsEdge(mesh, es[i])
  {
    Joins(mesh, es[i], vs[i], vs[i + 1])
  }

  /** The layout every span is meant to have. */
  predicate SpanAligned(mesh: Mesh, vs: seq<int>, es: seq<int>) {
    |vs| == |es| + 1 && ValidEdges(mesh, es) &&
    forall i :: 0 <= i < |es| ==> PathJoinsAt(mesh, vs, es, i)
  }

  lemma PathEdgesAligned(mesh: Mesh, vs: seq<int>)
    requires |vs| >= 1 && PathConnected(mesh, vs)
    ensures SpanAligned(mesh, vs, PathEdges(mesh, vs))
  {
    var es := PathEdges(mesh, vs);
    forall i | 0 <= i < |es| ensures IsEdge(mesh, es[i]) && PathJoinsAt(mesh, vs, es, i) {
      assert es[i] == PathEdgeAt(mesh, vs, i);
    }
  }

  /**
   * Round trip: the edges of a path of at least three distinct, connected
   * vertices give back exactly that path.
   */
  lemma SpanRoundTrip(mesh: Mesh, vs: seq<int>)
    requires |vs| >= 3 && DistinctIds(vs) && PathConnected(mesh, vs)
    ensures ValidEdges(mesh, PathEdges(mesh, vs))
    ensures SpanVerticesFromEdges(mesh, PathEdges(mesh, vs)) == vs
  {
    var es := PathEdges(mesh, vs);
    var n := |es|;
    PathEdgesAligned(mesh, vs);
    var got := SpanVerticesFromEdges(mesh, es);
    forall i | 1 <= i < n
      ensures got[i] == vs[i]
    {
      SharedBetween(mesh, vs, es, i);
    }
    SharedBetween(mesh, vs, es, 1);
    SharedBetween(mesh, vs, es, n - 1);
    assert PathJoinsAt(mesh, vs, es, 0) && PathJoinsAt(mesh, vs, es, n - 1);
    assert vs[0] != vs[1] && vs[n - 1] != vs[n];
    assert got[0] == FindEdgeOtherV(GetEdgeV(mesh, es[0]), vs[1]) == vs[0];
    assert got[n] == FindEdgeOtherV(GetEdgeV(mesh, es[n - 1]), vs[n - 1]) == vs[n];
    assert forall i :: 0 <= i <= n ==> got[i] == vs[i];
  }

  /** Between two aligned edges whose outer ends differ, the shared vertex is the one they meet at. */
  lemma SharedBetween(mesh: Mesh, vs: seq<int>, es: seq<int>, i: int)
    requires SpanAligned(mesh, vs, es) && 1 <= i < |es| && vs[i - 1] != vs[i + 1]
    ensures FindSharedEdgeV(GetEdgeV(mesh, es[i - 1]), GetEdgeV(mesh, es[i])) == vs[i]
  {
    assert PathJoinsAt(mesh, vs, es, i - 1) && PathJoinsAt(mesh, vs, es, i);
  }

  /** A lone edge comes back as its stored endpoints: the two vertices, in either order. */
  lemma SpanRoundTripSingleEdge(mesh: Mesh, vs: seq<int>)
    requires |vs| == 2 && PathConnected(mesh, vs)
    ensures ValidEdges(mesh, PathEdges(mesh, vs))
    ensures var got := SpanVerticesFromEdges(mesh, PathEdges(mesh, vs));
      got == vs || got == Reversed(vs)
  {
    PathEdgesAligned(mesh, vs);
    assert PathJoinsAt(mesh, vs, PathEdges(mesh, vs), 0);
  }

  /** The first i from k on with no edge from vertex i to vertex i+1, or |vs|-1. */
  function FirstPathGap(mesh: Mesh, vs: seq<int>, k: nat): (r: nat)
    requires 1 <= |vs| && k <= |vs| - 1
    decreases |vs| - k
    ensures k <= r <= |vs| - 1
    ensures forall i :: k <= i < r ==> PathEdgeAt(mesh, vs, i) != InvalidID
    ensures r < |vs| - 1 ==> PathEdgeAt(mesh, vs, r) == InvalidID
  {
    if k == |vs| - 1 then k
    else if PathEdgeAt(mesh, vs, k) == InvalidID then k
    else FirstPathGap(mesh, vs, k + 1)
  }

  /** What FromVertices builds: the path's edges, the first unconnected pair, or a failure on an empty list. */
  function SpanFromVerticesSpec(mesh: Mesh, vs: seq<int>): (r: Result<LoopParts, LoopError>)
    ensures r.Ok? <==> |vs| >= 1 && PathConnected(mesh, vs)
    ensures r.Ok? ==> r.value.vertices == vs && SpanAligned(mesh, vs, r.value.edges)
    ensures |vs| == 0 ==> r == Err(NegativeSize)
  {
    if |vs| == 0 then Err(NegativeSize)
    else
      var k := FirstPathGap(mesh, vs, 0);
      if k < |vs| - 1 then Err(EdgeNotFound(vs[k], vs[k + 1]))
      else
        PathEdgesAligned(mesh, vs);
        Ok(LoopParts(vs, PathEdges(mesh, vs)))
  }

  /** The pairs of an open path that are joined by a boundary edge are none (missing edges are skipped). */
  predicate PathInternal(mesh: Mesh, vs: seq<int>) {
    forall i :: 0 <= i < |vs| - 1 ==>
      PathEdgeAt(mesh, vs, i) == InvalidID || !IsBoundaryEdge(mesh, PathEdgeAt(mesh, vs, i))
  }

  /** Every pair of an open path is joined by a boundary edge. */
  predicate PathBoundary(mesh: Mesh, vs: seq<int>) {
    forall i :: 0 <= i < |vs| - 1 ==>
      PathEdgeAt(mesh, vs, i) != InvalidID && IsBoundaryEdge(mesh, PathEdgeAt(mesh, vs, i))
  }

  /** The first pair with no edge or with an interior edge, or |vs|-1. */
  function FirstNonBoundary(mesh: Mesh, vs: seq<int>, k: nat): (r: nat)
    requires 1 <= |vs| && k <= |vs| - 1
    decreases |vs| - k
    ensures k <= r <= |vs| - 1
    ensures forall i :: k <= i < r ==>
      PathEdgeAt(mesh, vs, i) != InvalidID && IsBoundaryEdge(mesh, PathEdgeAt(mesh, vs, i))
    ensures r < |vs| - 1 ==>
      PathEdgeAt(mesh, vs, r) == InvalidID || !IsBoundaryEdge(mesh, PathEdgeAt(mesh, vs, r))
  {
    if k == |vs| - 1 then k
    else if PathEdgeAt(mesh, vs, k) == InvalidID || !IsBoundaryEdge(mesh, PathEdgeAt(mesh, vs, k)) then k
    else FirstNonBoundary(mesh, vs, k + 1)
  }

  class EdgeSpan {
    var Mesh: Mesh
    var Vertices: seq<int>
    var Edges: seq<int>
    var BowtieVertices: seq<int>

    constructor (mesh: Mesh)
      ensures Mesh == mesh && Vertices == [] && Edges == [] && BowtieVertices == []
    {
      Mesh := mesh;
      Vertices := [];
      Edges := [];
      BowtieVertices := [];
    }

    constructor FromParts(mesh: Mesh, vertices: seq<int>, edges: seq<int>)
      ensures Mesh == mesh && Vertices == vertices && Edges == edges && BowtieVertices == []
    {
      Mesh := mesh;
      Vertices := vertices;
      Edges := edges;
      BowtieVertices := [];
    }

    /** Builds a span from an ordered, non-empty edge list. */
    static method FromEdges(mesh: Mesh, edges: seq<int>) returns (span: EdgeSpan)
      requires |edges| >= 1 && ValidEdges(mesh, edges)
      ensures fresh(span) && span.Mesh == mesh && span.Edges == edges
      ensures span.Vertices == SpanVerticesFromEdges(mesh, edges)
    {
      var n := |edges|;
      var vertices := seq(n + 1, _ => 0);
      var startEv := GetEdgeV(mesh, edges[0]);
      var prevEv := startEv;
      if n > 1 {
        var i := 1;
        while i < n
          invariant 1 <= i <= n && |vertices| == n + 1
          invariant prevEv == GetEdgeV(mesh, edges[i - 1])
          invariant forall j :: 1 <= j < i ==>
            vertices[j] == FindSharedEdgeV(GetEdgeV(mesh, edges[j - 1]), GetEdgeV(mesh, edges[j]))
        {
          var nextEv := GetEdgeV(mesh, edges[i]);
          vertices := vertices[i := FindSharedEdgeV(prevEv, nextEv)];
          prevEv := nextEv;
          i := i + 1;
        }
        InteriorVerticesComplete(mesh, edges, vertices);
        vertices := vertices[0 := FindEdgeOtherV(startEv, vertices[1])];
        vertices := vertices[n := FindEdgeOtherV(prevEv, vertices[n - 1])];
      } else {
        vertices := [startEv.x, startEv.y];
      }
      span := new EdgeSpan.FromParts(mesh, vertices, edges);
    }

    /** Builds a span from an ordered vertex list, failing on the first unconnected pair or an empty list. */
    static method FromVertices(mesh: Mesh, vertices: seq<int>) returns (r: Result<EdgeSpan, LoopError>)
      ensures var spec := SpanFromVerticesSpec(mesh, vertices);
        r.Ok? <==> spec.Ok?
      ensures var spec := SpanFromVerticesSpec(mesh, vertices);
        r.Err? ==> r.error == spec.error
      ensures var spec := SpanFromVerticesSpec(mesh, vertices);
        r.Ok? ==> (fresh(r.value) && r.value.Mesh == mesh
          && r.value.Vertices == spec.value.vertices && r.value.Edges == spec.value.edges)
    {
      var nv := |vertices|;
      var ne := nv - 1;
      if ne < 0 {
        return Err(NegativeSize);
      }
      var edges := seq(ne, _ => 0);
      var i := 0;
      while i < ne
        invariant 0 <= i <= ne && |edges| == ne
        invariant forall k :: 0 <= k < i ==> edges[k] == PathEdgeAt(mesh, vertices, k) != InvalidID
      {
        edges := edges[i := FindEdge(mesh, vertices[i], vertices[i + 1])];
        if edges[i] == InvalidID {
          assert PathEdgeAt(mesh, vertices, i) == InvalidID;
          assert FirstPathGap(mesh, vertices, 0) == i;
          return Err(EdgeNotFound(vertices[i], vertices[i + 1]));
        }
        i := i + 1;
      }
      assert FirstPathGap(mesh, vertices, 0) == ne;
      assert edges == PathEdges(mesh, vertices);
      var span := new EdgeSpan.FromParts(mesh, vertices, edges);
      return Ok(span);
    }

    /** True unless some pair of the path is joined by a boundary edge. */
    method IsInternalSpan() returns (r: bool)
      ensures r <==> PathInternal(Mesh, Vertices)
    {
      var nv := |Vertices|;
      var i := 0;
      while i < nv - 1
        invariant 0 <= i && (i == 0 || i <= nv - 1)
        invariant forall k :: 0 <= k < i ==>
          PathEdgeAt(Mesh, Vertices, k) == InvalidID || !IsBoundaryEdge(Mesh, PathEdgeAt(Mesh, Vertices, k))
      {
        var eid := FindEdge(Mesh, Vertices[i], Vertices[i + 1]);
        assert eid == PathEdgeAt(Mesh, Vertices, i);
        if eid == InvalidID {
          i := i + 1;
          continue;
        }
        if IsBoundaryEdge(Mesh, eid) {
          return false;
        }
        i := i + 1;
      }
      return true;
    }

    /**
     * True when every pair is joined by a boundary edge of testMesh (or of
     * the span's own mesh). A pair with no edge breaks the asserted
     * precondition and is reported as EdgeNotFound.
     */
    method IsBoundarySpan(testMesh: Option<Mesh>) returns (r: Result<bool, LoopError>)
      ensures |Vertices| <= 1 ==> r == Ok(true)
      ensures |Vertices| >= 2 ==>
        var m := if testMesh.Some? then testMesh.value else Mesh;
        var k := FirstNonBoundary(m, Vertices, 0);
        r == if k == |Vertices| - 1 then Ok(true)
             else if PathEdgeAt(m, Vertices, k) == InvalidID then Err(EdgeNotFound(Vertices[k], Vertices[k + 1]))
             else Ok(false)
      ensures r == Ok(true) <==> PathBoundary(if testMesh.Some? then testMesh.value else Mesh, Vertices)
    {
      var useMesh := if testMesh.Some? then testMesh.value else Mesh;
      var nv := |Vertices|;
      var i := 0;
      while i < nv - 1
        invariant 0 <= i && (i == 0 || i <= nv - 1)
        invariant forall k :: 0 <= k < i ==>
          PathEdgeAt(useMesh, Vertices, k) != InvalidID && IsBoundaryEdge(useMesh, PathEdgeAt(useMesh, Vertices, k))
      {
        var eid := FindEdge(useMesh, Vertices[i], Vertices[i + 1]);
        assert eid == PathEdgeAt(useMesh, Vertices, i);
        if eid == InvalidID {
          assert FirstNonBoundary(useMesh, Vertices, 0) == i;
          return Err(EdgeNotFound(Vertices[i], Vertices[i + 1]));
        }
        if !IsBoundaryEdge(useMesh, eid) {
          assert FirstNonBoundary(useMesh, Vertices, 0) == i;
          return Ok(false);
        }
        i := i + 1;
      }
      if nv >= 1 {
        assert FirstNonBoundary(useMesh, Vertices, 0) == nv - 1;
      }
      return Ok(true);
    }

    /** Index of the span vertex nearest a query point (first on ties), or -1. */
    method FindNearestVertex(d2: int -> real) returns (r: int)
      ensures r == NearestIndex(Vertices, d2)
    {
      r := FindNearest(Vertices, d2);
    }

    method CountWithinTolerance(near: int -> bool) returns (count: int, lastInTol: int)
      ensures count == CountNear(Vertices, near) && lastInTol == LastNear(Vertices, near)
      ensures lastInTol == -1 <==> count == 0
    {
      count, lastInTol := CountWithin(Vertices, near);
    }

    /** Span comparison is not implemented: every call throws. */
    method IsSameSpan(span2: EdgeSpan, reverse2: bool, tol: real) returns (r: Result<bool, LoopError>)
      ensures r.Err? && r.error == NotImplemented
    {
      return Err(NotImplemented);
    }

    /** The edges of a vertex path (InvalidID where a pair is not connected); an empty path sizes the result -1. */
    static method VerticesToEdges(mesh: Mesh, vertexSpan: seq<int>) returns (r: Result<seq<int>, LoopError>)
      ensures |vertexSpan| == 0 <==> r.Err?
      ensures r.Err? ==> r.error == NegativeSize
      ensures r.Ok? ==> |vertexSpan| >= 1 && r.value == PathEdges(mesh, vertexSpan)
    {
      var nv := |vertexSpan|;
      if nv - 1 < 0 {
        return Err(NegativeSize);
      }
      var edges := seq(nv - 1, _ => 0);
      var i := 0;
      while i < nv - 1
        invariant 0 <= i <= nv - 1 && |edges| == nv - 1
        invariant forall k :: 0 <= k < i ==> edges[k] == PathEdgeAt(mesh, vertexSpan, k)
      {
        var v0 := vertexSpan[i];
        var v1 := vertexSpan[i + 1];
        edges := edges[i := FindEdge(mesh, v0, v1)];
        i := i + 1;
      }
      return Ok(edges);
    }
  }
}

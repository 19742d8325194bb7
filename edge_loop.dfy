/**
 * EdgeLoop: a closed sequence of mesh vertices and the edges between them,
 * edge i joining vertex i and vertex i+1 (mod N). Loops are rebuilt from
 * edge lists or vertex lists, classified as boundary or interior, searched
 * and compared.
 */
module EdgeLoops {
  import opened G3Types
  import opened MeshModel
  import IndexUtil

  /** What the source throws, or the undefined behaviour it would hit. */
  datatype LoopError =
    | EdgeNotFound(a: int, b: int)  // two consecutive vertices have no edge
    | IndexOutOfRange               // a vector read or written past its end
    | NullMesh                      // a member call through a null mesh pointer
    | NegativeSize                  // an array or vector sized -1
    | NotImplemented                // the operation only throws

  /** The vertex and edge lists of a loop, as a value. */
  datatype LoopParts = LoopParts(vertices: seq<int>, edges: seq<int>)

  /** size_t(-1): what FindVertexIndex returns when the vertex is absent. */
  const SizeMax: int := 0xFFFF_FFFF_FFFF_FFFF

  // ---------------------------------------------------------------------
  // Free helpers

  /** A vertex common to both edges, trying (x,x), (x,y), (y,x), (y,y) in that order; InvalidID if none. */
  function FindSharedEdgeV(ev0: Index2, ev1: Index2): (r: int)
    ensures r != InvalidID ==> HasVertex(ev0, r) && HasVertex(ev1, r)
    ensures HasVertex(ev1, ev0.x) ==> r == ev0.x
    ensures !HasVertex(ev1, ev0.x) && HasVertex(ev1, ev0.y) ==> r == ev0.y
    ensures ev0.x >= 0 && ev0.y >= 0 ==>
      (r == InvalidID <==> !HasVertex(ev1, ev0.x) && !HasVertex(ev1, ev0.y))
  {
    if ev0.x == ev1.x then ev0.x
    else if ev0.x == ev1.y then ev0.x
    else if ev0.y == ev1.x then ev0.y
    else if ev0.y == ev1.y then ev0.y
    else InvalidID
  }

  /** The endpoint of ev that is not v, or InvalidID when v is not an endpoint. */
  function FindEdgeOtherV(ev: Index2, v: int): (r: int)
    ensures HasVertex(ev, v) ==> HasVertex(ev, r) && (ev.x != ev.y ==> r != v)
    ensures !HasVertex(ev, v) ==> r == InvalidID
  {
    if ev.x == v then ev.y
    else if ev.y == v then ev.x
    else InvalidID
  }

  /** Taking the other endpoint twice comes back to the start. */
  lemma EdgeOtherVInvolution(ev: Index2, v: int)
    requires HasVertex(ev, v)
    ensures FindEdgeOtherV(ev, FindEdgeOtherV(ev, v)) == v
  {
  }

  function Reversed(s: seq<int>): (r: seq<int>)
    ensures |r| == |s|
    ensures forall i :: 0 <= i < |s| ==> r[i] == s[|s| - 1 - i]
  {
    seq(|s|, i requires 0 <= i < |s| => s[|s| - 1 - i])
  }

  lemma ReversedTwice(s: seq<int>)
    ensures Reversed(Reversed(s)) == s
  {
  }

  predicate DistinctIds(s: seq<int>) {
    forall i, j :: 0 <= i < j < |s| ==> s[i] != s[j]
  }

  // ---------------------------------------------------------------------
  // Specification functions

  /** The vertices FromEdges recovers from an edge list. */
  function LoopVerticesFromEdges(mesh: Mesh, edges: seq<int>): (vs: seq<int>)
    requires |edges| >= 2 && ValidEdges(mesh, edges)
    ensures |vs| == |edges|
  {
    seq(|edges|, i requires 0 <= i < |edges| =>
      if i == 0 then
        FindEdgeOtherV(GetEdgeV(mesh, edges[0]), FindSharedEdgeV(GetEdgeV(mesh, edges[0]), GetEdgeV(mesh, edges[1])))
      else
        FindSharedEdgeV(GetEdgeV(mesh, edges[i - 1]), GetEdgeV(mesh, edges[i])))
  }

  /** The vertex after slot i, wrapping round to slot 0. */
  function Succ(vs: seq<int>, i: int): int
    requires 0 <= i < |vs|
  {
    if i + 1 < |vs| then vs[i + 1] else vs[0]
  }

  /** The edge from slot i to the next slot, or InvalidID. */
  function EdgeAfter(mesh: Mesh, vs: seq<int>, i: int): int
    requires 0 <= i < |vs|
  {
    FindEdge(mesh, vs[i], Succ(vs, i))
  }

  /** The edge between each vertex and the next one round the loop (InvalidID where there is none). */
  function CyclicEdges(mesh: Mesh, vs: seq<int>): (es: seq<int>)
    ensures |es| == |vs|
  {
    seq(|vs|, i requires 0 <= i < |vs| => EdgeAfter(mesh, vs, i))
  }

  /** Every vertex is joined to the next one round the loop by some edge. */
  predicate Connected(mesh: Mesh, vs: seq<int>) {
    forall i :: 0 <= i < |vs| ==> EdgeAfter(mesh, vs, i) != InvalidID
  }

  /** Edge i of es joins vertex i and vertex i+1 (mod N). */
  predicate JoinsAt(mesh: Mesh, vs: seq<int>, es: seq<int>, i: int)
    requires 0 <= i < |vs| == |es| && IsEdge(mesh, es[i])
  {
    Joins(mesh, es[i], vs[i], Succ(vs, i))
  }

  /** Every edge sits between the two vertices around it: the layout every loop is meant to have. */
  predicate Aligned(mesh: Mesh, vs: seq<int>, es: seq<int>) {
    |vs| == |es| && ValidEdges(mesh, es) &&
    forall i :: 0 <= i < |es| ==> JoinsAt(mesh, vs, es, i)
  }

  lemma CyclicEdgesAligned(mesh: Mesh, vs: seq<int>)
    requires Connected(mesh, vs)
    ensures Aligned(mesh, vs, CyclicEdges(mesh, vs))
  {
    var es := CyclicEdges(mesh, vs);
    forall i | 0 <= i < |vs| ensures IsEdge(mesh, es[i]) && JoinsAt(mesh, vs, es, i) {
      assert es[i] == EdgeAfter(mesh, vs, i);
    }
  }

  /**
   * Round trip: the edges of a loop of distinct, connected vertices (at least
   * three) give back exactly those vertices, in the same order.
   */
  lemma LoopRoundTrip(mesh: Mesh, vs: seq<int>)
    requires |vs| >= 3 && DistinctIds(vs) && Connected(mesh, vs)
    ensures ValidEdges(mesh, CyclicEdges(mesh, vs))
    ensures LoopVerticesFromEdges(mesh, CyclicEdges(mesh, vs)) == vs
  {
    CyclicEdgesAligned(mesh, vs);
    AlignedRoundTrip(mesh, vs, CyclicEdges(mesh, vs));
  }

  /** The vertices recovered from the edges of an aligned loop of distinct vertices are the loop's own. */
  lemma AlignedRoundTrip(mesh: Mesh, vs: seq<int>, es: seq<int>)
    requires |vs| >= 3 && DistinctIds(vs) && Aligned(mesh, vs, es)
    ensures LoopVerticesFromEdges(mesh, es) == vs
  {
    var got := LoopVerticesFromEdges(mesh, es);
    LaterVerticesRecovered(mesh, vs, es);
    FirstVertexRecovered(mesh, vs, es);
    assert forall i :: 0 <= i < |vs| ==> got[i] == vs[i];
  }

  lemma LaterVerticesRecovered(mesh: Mesh, vs: seq<int>, es: seq<int>)
    requires |vs| >= 3 && DistinctIds(vs) && Aligned(mesh, vs, es)
    ensures forall i :: 1 <= i < |vs| ==> LoopVerticesFromEdges(mesh, es)[i] == vs[i]
  {
    forall i | 1 <= i < |vs|
      ensures LoopVerticesFromEdges(mesh, es)[i] == vs[i]
    {
      AdjacentEdgesShare(mesh, vs, es, i);
    }
  }

  lemma FirstVertexRecovered(mesh: Mesh, vs: seq<int>, es: seq<int>)
    requires |vs| >= 3 && DistinctIds(vs) && Aligned(mesh, vs, es)
    ensures LoopVerticesFromEdges(mesh, es)[0] == vs[0]
  {
    AdjacentEdgesShare(mesh, vs, es, 1);
    assert JoinsAt(mesh, vs, es, 0);
    assert vs[0] != vs[1];
  }

  /** Consecutive edges of an aligned loop of distinct vertices share exactly the vertex between them. */
  lemma AdjacentEdgesShare(mesh: Mesh, vs: seq<int>, es: seq<int>, i: int)
    requires |vs| >= 3 && DistinctIds(vs) && Aligned(mesh, vs, es) && 1 <= i < |vs|
    ensures FindSharedEdgeV(GetEdgeV(mesh, es[i - 1]), GetEdgeV(mesh, es[i])) == vs[i]
  {
    assert JoinsAt(mesh, vs, es, i - 1) && JoinsAt(mesh, vs, es, i);
    assert Succ(vs, i - 1) == vs[i];
    assert vs[i - 1] != Succ(vs, i) by {
      if i + 1 < |vs| { assert vs[i - 1] != vs[i + 1]; } else { assert vs[0] != vs[i - 1]; }
    }
  }

  /**
   * What FromEdges promises for well-formed input: each recovered vertex
   * after the first lies on the edges before and after it, and the first is
   * the far end of edge 0.
   */
  lemma FromEdgesVerticesOnEdges(mesh: Mesh, edges: seq<int>)
    requires |edges| >= 2 && ValidEdges(mesh, edges)
    requires forall i :: 0 <= i < |edges| ==> GetEdgeV(mesh, edges[i]).x >= 0 && GetEdgeV(mesh, edges[i]).y >= 0
    requires forall i :: 0 <= i < |edges| ==> GetEdgeV(mesh, edges[i]).x != GetEdgeV(mesh, edges[i]).y
    requires forall i :: 1 <= i < |edges| ==>
      FindSharedEdgeV(GetEdgeV(mesh, edges[i - 1]), GetEdgeV(mesh, edges[i])) != InvalidID
    ensures var vs := LoopVerticesFromEdges(mesh, edges);
      forall i :: 1 <= i < |edges| ==>
        HasVertex(GetEdgeV(mesh, edges[i - 1]), vs[i]) && HasVertex(GetEdgeV(mesh, edges[i]), vs[i])
    ensures var vs := LoopVerticesFromEdges(mesh, edges);
      HasVertex(GetEdgeV(mesh, edges[0]), vs[0]) && vs[0] != vs[1]
  {
    var vs := LoopVerticesFromEdges(mesh, edges);
    assert vs[1] == FindSharedEdgeV(GetEdgeV(mesh, edges[0]), GetEdgeV(mesh, edges[1]));
  }

  /** Pair i is not joined by a boundary edge (a missing edge is skipped). */
  predicate PairInternal(mesh: Mesh, vs: seq<int>, i: int)
    requires 0 <= i < |vs|
  {
    var e := EdgeAfter(mesh, vs, i);
    e == InvalidID || !IsBoundaryEdge(mesh, e)
  }

  /** Pair i is not joined by an interior edge (a missing edge is skipped). */
  predicate PairBoundary(mesh: Mesh, vs: seq<int>, i: int)
    requires 0 <= i < |vs|
  {
    var e := EdgeAfter(mesh, vs, i);
    e == InvalidID || IsBoundaryEdge(mesh, e)
  }

  predicate AllPairsInternal(mesh: Mesh, vs: seq<int>) {
    forall i :: 0 <= i < |vs| ==> PairInternal(mesh, vs, i)
  }

  predicate AllPairsBoundary(mesh: Mesh, vs: seq<int>) {
    forall i :: 0 <= i < |vs| ==> PairBoundary(mesh, vs, i)
  }

  /** Pair i of the reversed loop is pair n-2-i (mod n) of the loop, walked the other way. */
  lemma ReversedPair(mesh: Mesh, vs: seq<int>, i: int)
    requires 0 <= i < |vs|
    ensures EdgeAfter(mesh, Reversed(vs), i) == EdgeAfter(mesh, vs, ReversedIndex(|vs|, i))
  {
    var n := |vs|;
    var rs := Reversed(vs);
    var k := ReversedIndex(n, i);
    if i + 1 < n {
      assert k == n - 2 - i && Succ(vs, k) == vs[n - 1 - i] && Succ(rs, i) == vs[k];
    } else {
      assert k == n - 1 && Succ(vs, k) == vs[0] && Succ(rs, i) == vs[n - 1];
    }
    FindEdgeSymmetric(mesh, rs[i], Succ(rs, i));
  }

  /** Walking a loop backwards visits the same edges, so it is interior exactly when the loop is. */
  lemma InternalUnderReversal(mesh: Mesh, vs: seq<int>)
    ensures AllPairsInternal(mesh, Reversed(vs)) == AllPairsInternal(mesh, vs)
  {
    var n := |vs|;
    var rs := Reversed(vs);
    if AllPairsInternal(mesh, vs) {
      forall i | 0 <= i < n ensures PairInternal(mesh, rs, i) {
        ReversedPair(mesh, vs, i);
        assert PairInternal(mesh, vs, ReversedIndex(n, i));
      }
    }
    if AllPairsInternal(mesh, rs) {
      forall k | 0 <= k < n ensures PairInternal(mesh, vs, k) {
        var i := ReversedIndex(n, k);
        assert ReversedIndex(n, i) == k;
        ReversedPair(mesh, vs, i);
        assert PairInternal(mesh, rs, i);
      }
    }
  }

  /** The first slot from i on with no edge to the next slot, or |vs| if all have one. */
  function FirstMissing(mesh: Mesh, vs: seq<int>, i: nat): (r: nat)
    requires i <= |vs|
    decreases |vs| - i
    ensures i <= r <= |vs|
    ensures forall k :: i <= k < r ==> EdgeAfter(mesh, vs, k) != InvalidID
    ensures r < |vs| ==> EdgeAfter(mesh, vs, r) == InvalidID
  {
    if i == |vs| then i
    else if EdgeAfter(mesh, vs, i) == InvalidID then i
    else FirstMissing(mesh, vs, i + 1)
  }

  /** The vertex order FromVertices works on: reversed when the first edge is a boundary edge walked (b, a). */
  function OrientedVertices(mesh: Mesh, vs: seq<int>, autoOrient: bool): (ws: seq<int>)
    requires autoOrient ==> |vs| >= 2
    ensures ws == vs || ws == Reversed(vs)
  {
    if !autoOrient then vs
    else
      var eid := FindEdge(mesh, vs[0], vs[1]);
      if eid != InvalidID && IsBoundaryEdge(mesh, eid)
         && GetOrientedBoundaryEdgeV(mesh, eid) == Index2(vs[1], vs[0])
      then Reversed(vs)
      else vs
  }

  /** What FromVertices is meant to build: edges between consecutive (oriented) vertices, or the first missing pair. */
  function FromVerticesSpec(mesh: Mesh, vs: seq<int>, autoOrient: bool): (r: Result<LoopParts, LoopError>)
    requires autoOrient ==> |vs| >= 2
    ensures var ws := OrientedVertices(mesh, vs, autoOrient);
      r.Ok? <==> Connected(mesh, ws)
    ensures var ws := OrientedVertices(mesh, vs, autoOrient);
      r.Ok? ==> r.value.vertices == ws && Aligned(mesh, ws, r.value.edges)
  {
    var ws := OrientedVertices(mesh, vs, autoOrient);
    var k := FirstMissing(mesh, ws, 0);
    if k < |ws| then Err(EdgeNotFound(ws[k], Succ(ws, k)))
    else
      CyclicEdgesAligned(mesh, ws);
      Ok(LoopParts(ws, CyclicEdges(mesh, ws)))
  }

  /**
   * FromVertices without orientation, as written: the copy loop walks the
   * still-empty output, so no vertex is copied and the edge loop reads past
   * the end of an empty vector as soon as there is one vertex.
   */
  function FromVerticesAsWritten(mesh: Mesh, vs: seq<int>): (r: Result<LoopParts, LoopError>)
    ensures r.Ok? <==> vs == []
    ensures r.Ok? ==> r.value.vertices == []
  {
    if |vs| == 0 then Ok(LoopParts([], [])) else Err(IndexOutOfRange)
  }

  /**
   * FromVertices with the orientation flag, as written: the output is still
   * empty, so orienting reads element 0 of an empty vector, and without
   * orienting the result is an empty loop whatever the input.
   */
  function FromVerticesOrientedAsWritten(mesh: Mesh, vs: seq<int>, autoOrient: bool): (r: Result<LoopParts, LoopError>)
    ensures r.Ok? <==> !autoOrient
    ensures r.Ok? ==> r.value == LoopParts([], [])
  {
    if autoOrient then Err(IndexOutOfRange) else Ok(LoopParts([], []))
  }

  /** The three vertices of a single triangle, every edge on the boundary. */
  function TriangleMesh(): Mesh {
    Mesh([EdgeRecord(Index2(0, 1), true, false),
          EdgeRecord(Index2(1, 2), true, false),
          EdgeRecord(Index2(2, 0), true, false)])
  }

  /** Both as-written overloads lose a perfectly good loop that the intended code builds. */
  lemma FromVerticesLosesInput()
    ensures FromVerticesSpec(TriangleMesh(), [0, 1, 2], false) == Ok(LoopParts([0, 1, 2], [0, 1, 2]))
    ensures FromVerticesSpec(TriangleMesh(), [0, 1, 2], true) == Ok(LoopParts([0, 1, 2], [0, 1, 2]))
    ensures FromVerticesAsWritten(TriangleMesh(), [0, 1, 2]) == Err(IndexOutOfRange)
    ensures FromVerticesOrientedAsWritten(TriangleMesh(), [0, 1, 2], true) == Err(IndexOutOfRange)
    ensures FromVerticesOrientedAsWritten(TriangleMesh(), [0, 1, 2], false) == Ok(LoopParts([], []))
  {
    var m := TriangleMesh();
    assert Joins(m, 0, 0, 1) && Joins(m, 1, 1, 2) && Joins(m, 2, 2, 0);
    assert FindEdge(m, 0, 1) == 0;
    assert FindEdge(m, 1, 2) == 1;
    assert FindEdge(m, 2, 0) == 2;
    assert CyclicEdges(m, [0, 1, 2]) == [0, 1, 2];
    assert FirstMissing(m, [0, 1, 2], 0) == 3;
  }

  /** Slot n-2-k, wrapping round to n-1: the pair of the original loop that pair k of the reversal walks. */
  function ReversedIndex(n: int, k: int): (j: int)
    requires 0 <= k < n
    ensures 0 <= j < n
  {
    if k + 1 < n then n - 2 - k else n - 1
  }

  /** Reversing both lists, as Reverse does, leaves edge k joining vertices k-1 and k. */
  function ReversedEdgesAligned(es: seq<int>): (rs: seq<int>)
    ensures |rs| == |es|
  {
    var n := |es|;
    seq(n, k requires 0 <= k < n => es[ReversedIndex(n, k)])
  }

  /** The corrected reversal keeps every edge between the two vertices it sits between. */
  lemma ReversalKeepsAlignment(mesh: Mesh, vs: seq<int>, es: seq<int>)
    requires Aligned(mesh, vs, es)
    ensures Aligned(mesh, Reversed(vs), ReversedEdgesAligned(es))
  {
    var n := |vs|;
    var rv := Reversed(vs);
    var re := ReversedEdgesAligned(es);
    forall k | 0 <= k < n
      ensures IsEdge(mesh, re[k]) && JoinsAt(mesh, rv, re, k)
    {
      var j := ReversedIndex(n, k);
      assert re[k] == es[j];
      assert JoinsAt(mesh, vs, es, j);
      if k == n - 1 {
        assert j == n - 1 && Succ(vs, j) == vs[0] && Succ(rv, k) == vs[n - 1];
      } else {
        assert j == n - 2 - k && Succ(vs, j) == vs[n - 1 - k] && Succ(rv, k) == vs[j];
      }
    }
  }

  /** Reverse as written breaks the layout: on a triangle, edge 0 no longer joins vertices 0 and 1. */
  lemma ReverseMisalignsEdges()
    ensures Aligned(TriangleMesh(), [0, 1, 2], [0, 1, 2])
    ensures !Aligned(TriangleMesh(), Reversed([0, 1, 2]), Reversed([0, 1, 2]))
    ensures Aligned(TriangleMesh(), Reversed([0, 1, 2]), ReversedEdgesAligned([0, 1, 2]))
  {
    var m := TriangleMesh();
    assert Reversed([0, 1, 2]) == [2, 1, 0];
    assert !JoinsAt(m, [2, 1, 0], [2, 1, 0], 0);
    ReversalKeepsAlignment(m, [0, 1, 2], [0, 1, 2]);
  }

  /** How many loop vertices are within tolerance. */
  function CountNear(vs: seq<int>, near: int -> bool): (c: nat)
    ensures c <= |vs|
    ensures c == 0 <==> forall i :: 0 <= i < |vs| ==> !near(vs[i])
  {
    if |vs| == 0 then 0
    else
      var init := vs[..|vs| - 1];
      assert forall i :: 0 <= i < |init| ==> init[i] == vs[i];
      CountNear(init, near) + (if near(vs[|vs| - 1]) then 1 else 0)
  }

  /** The last index within tolerance, or -1. */
  function LastNear(vs: seq<int>, near: int -> bool): (r: int)
    ensures -1 <= r < |vs|
    ensures r == -1 <==> forall i :: 0 <= i < |vs| ==> !near(vs[i])
    ensures r != -1 ==> near(vs[r]) && forall i :: r < i < |vs| ==> !near(vs[i])
  {
    if |vs| == 0 then -1
    else if near(vs[|vs| - 1]) then |vs| - 1
    else
      var init := vs[..|vs| - 1];
      assert forall i :: 0 <= i < |init| ==> init[i] == vs[i];
      LastNear(init, near)
  }

  /** A sequence with exactly one vertex within tolerance counts one, at that index. */
  lemma {:induction false} CountNearSingle(vs: seq<int>, near: int -> bool, k: nat)
    requires k < |vs| && near(vs[k])
    requires forall i :: 0 <= i < |vs| && i != k ==> !near(vs[i])
    ensures CountNear(vs, near) == 1 && LastNear(vs, near) == k
  {
    var init := vs[..|vs| - 1];
    if k < |vs| - 1 {
      CountNearSingle(init, near, k);
    } else {
      assert forall i :: 0 <= i < |init| ==> !near(init[i]);
    }
  }

  /**
   * Counts the vertices within tolerance of a query point; near(v) stands for
   * "the position of vertex v is closer than tol". Also reports the last such
   * index, -1 when there is none.
   */
  method CountWithin(vs: seq<int>, near: int -> bool) returns (count: int, lastInTol: int)
    ensures count == CountNear(vs, near) && lastInTol == LastNear(vs, near)
    ensures lastInTol == -1 <==> count == 0
  {
    lastInTol := -1;
    count := 0;
    var i := 0;
    while i < |vs|
      invariant 0 <= i <= |vs|
      invariant count == CountNear(vs[..i], near)
      invariant lastInTol == LastNear(vs[..i], near)
    {
      assert vs[..i + 1][..i] == vs[..i];
      if near(vs[i]) {
        count := count + 1;
        lastInTol := i;
      }
      i := i + 1;
    }
    assert vs[..|vs|] == vs;
  }

  /** Quotient and remainder are unique: any x == q*m + r with 0 <= r < m is Euclidean division. */
  lemma ModUnique(x: int, m: int, q: int, r: int)
    requires m > 0 && 0 <= r < m && x == q * m + r
    ensures x % m == r && x / m == q
  {
    var q0, r0 := x / m, x % m;
    assert (q - q0) * m == r0 - r;
    if q - q0 >= 1 {
      assert false;
    } else if q - q0 <= -1 {
      assert false;
    }
  }

  /** The source's (i + 1) % N is the next slot, wrapping to 0. */
  lemma NextSlot(vs: seq<int>, i: int)
    requires 0 <= i < |vs|
    ensures vs[(i + 1) % |vs|] == Succ(vs, i)
  {
    if i + 1 < |vs| {
      ModSmall(i + 1, |vs|);
    } else {
      ModUnique(i + 1, |vs|, 1, 0);
    }
  }

  lemma ModSmall(x: int, m: int)
    requires 0 <= x < m
    ensures x % m == x
  {
    ModUnique(x, m, 0, x);
  }

  // ---------------------------------------------------------------------
  // Nearest vertex (positions are only reached through squared distances)

  /** The largest finite double, the starting "nearest so far" distance. */
  const DblMax: real := 179769313486231570814527423731704356798070567525844996598917476803157260780028538760589558632766878171540458953514382464234321326889464182768467546703537516986049910576551282076245490090389328944075868508455133942304583236903222948165808559332123348274797826204144723168738177180919299881250404026184124858368.0

  /**
   * The index of the vertex with the smallest squared distance d2 (the first
   * one on ties), or -1 when no distance is below DblMax.
   */
  function NearestIndex(vs: seq<int>, d2: int -> real): (r: int)
    ensures -1 <= r < |vs|
    ensures r == -1 <==> forall i :: 0 <= i < |vs| ==> d2(vs[i]) >= DblMax
    ensures r != -1 ==> d2(vs[r]) < DblMax
    ensures r != -1 ==> forall i :: 0 <= i < |vs| ==> d2(vs[r]) <= d2(vs[i])
    ensures r != -1 ==> forall i :: 0 <= i < r ==> d2(vs[i]) > d2(vs[r])
  {
    if |vs| == 0 then -1
    else
      var init := vs[..|vs| - 1];
      assert forall i :: 0 <= i < |init| ==> init[i] == vs[i];
      var p := NearestIndex(init, d2);
      var best := if p == -1 then DblMax else d2(vs[p]);
      if d2(vs[|vs| - 1]) < best then |vs| - 1 else p
  }

  /** The nearest-vertex scan: keep the first strictly smaller squared distance. */
  method FindNearest(vs: seq<int>, d2: int -> real) returns (iNear: int)
    ensures iNear == NearestIndex(vs, d2)
  {
    iNear := -1;
    var fNearSqr := DblMax;
    var i := 0;
    while i < |vs|
      invariant 0 <= i <= |vs|
      invariant iNear == NearestIndex(vs[..i], d2)
      invariant fNearSqr == if iNear == -1 then DblMax else d2(vs[iNear])
    {
      assert vs[..i + 1][..i] == vs[..i];
      var dist2 := d2(vs[i]);
      if dist2 < fNearSqr {
        fNearSqr := dist2;
        iNear := i;
      }
      i := i + 1;
    }
    assert vs[..|vs|] == vs;
  }

  // ---------------------------------------------------------------------
  // Loop comparison (positions are only reached through dist)

  /** "Within tolerance" for the start search: strictly closer than tol. */
  function NearTo(v: int, dist: (int, int) -> real, tol: real): int -> bool {
    w => dist(v, w) < tol
  }

  /** The first candidate start that is within tolerance of exactly one vertex of the other loop. */
  function FirstGoodStart(starts: seq<int>, vs2: seq<int>, dist: (int, int) -> real, tol: real, k: nat): (r: nat)
    requires k <= |starts|
    decreases |starts| - k
    ensures k <= r <= |starts|
    ensures r < |starts| ==> CountNear(vs2, NearTo(starts[r], dist, tol)) == 1
    ensures forall i :: k <= i < r ==> CountNear(vs2, NearTo(starts[i], dist, tol)) != 1
  {
    if k == |starts| then k
    else if CountNear(vs2, NearTo(starts[k], dist, tol)) == 1 then k
    else FirstGoodStart(starts, vs2, dist, tol, k + 1)
  }

  /** Slot of the other loop matched with slot ii after the start, walking forwards or backwards. */
  function PartnerIndex(startJ: int, ii: int, n: int, reverse: bool): int
    requires n > 0
  {
    if reverse then (startJ - ii) % n else (startJ + ii) % n
  }

  /** Walking both loops from the two starts, every pair of positions is within tolerance. */
  predicate Lockstep(vs: seq<int>, vs2: seq<int>, startI: int, startJ: int, reverse: bool,
                     dist: (int, int) -> real, tol: real)
    requires |vs| == |vs2| > 0 && 0 <= startI < |vs| && 0 <= startJ < |vs2|
  {
    forall ii :: 0 <= ii < |vs| ==>
      dist(vs[(startI + ii) % |vs|], vs2[PartnerIndex(startJ, ii, |vs2|, reverse)]) <= tol
  }

  /**
   * The loop comparison, parameterised by starts[i]: the vertex whose
   * position is looked up for start slot i.
   */
  predicate SameLoopFrom(starts: seq<int>, vs: seq<int>, vs2: seq<int>, reverse: bool,
                         dist: (int, int) -> real, tol: real)
    requires |starts| == |vs|
  {
    |vs| == |vs2| &&
    var s := FirstGoodStart(starts, vs2, dist, tol, 0);
    s < |starts| &&
    Lockstep(vs, vs2, s, LastNear(vs2, NearTo(starts[s], dist, tol)), reverse, dist, tol)
  }

  /** The start search: the first start slot whose vertex is near exactly one vertex of the other loop. */
  method FindStart(starts: seq<int>, vs2: seq<int>, dist: (int, int) -> real, tol: real)
    returns (found: bool, startI: int, startJ: int)
    ensures var s := FirstGoodStart(starts, vs2, dist, tol, 0);
      found <==> s < |starts|
    ensures found ==> startI == FirstGoodStart(starts, vs2, dist, tol, 0)
    ensures found ==> startI < |starts| && startJ == LastNear(vs2, NearTo(starts[startI], dist, tol))
  {
    var n := |starts|;
    startI, startJ := 0, -1;
    found := false;
    while !found && startI < n
      invariant 0 <= startI <= n
      invariant forall i :: 0 <= i < startI ==> CountNear(vs2, NearTo(starts[i], dist, tol)) != 1
      invariant found ==> startI < n && CountNear(vs2, NearTo(starts[startI], dist, tol)) == 1
      invariant found ==> startJ == LastNear(vs2, NearTo(starts[startI], dist, tol))
      decreases n - startI, if found then 0 else 1
    {
      var count;
      count, startJ := CountWithin(vs2, NearTo(starts[startI], dist, tol));
      if count == 1 {
        found := true;
      } else {
        startI := startI + 1;
      }
    }
    ghost var s := FirstGoodStart(starts, vs2, dist, tol, 0);
    if found {
      assert s == startI;
    } else {
      assert s == n;
    }
  }

  /** The lockstep walk from a start pair. */
  method WalkLockstep(vs: seq<int>, vs2: seq<int>, startI: int, startJ: int, reverse: bool,
                      dist: (int, int) -> real, tol: real) returns (r: bool)
    requires |vs| == |vs2| > 0 && 0 <= startI < |vs| && 0 <= startJ < |vs2|
    ensures r == Lockstep(vs, vs2, startI, startJ, reverse, dist, tol)
  {
    var n, n2 := |vs|, |vs2|;
    var ii := 0;
    while ii < n
      invariant 0 <= ii <= n
      invariant forall k :: 0 <= k < ii ==>
        dist(vs[(startI + k) % n], vs2[PartnerIndex(startJ, k, n2, reverse)]) <= tol
    {
      var i := (startI + ii) % n;
      var j;
      if reverse {
        j := EdgeLoop.WrapSignedIndex(startJ - ii, n2);
      } else {
        j := (startJ + ii) % n2;
      }
      assert j == PartnerIndex(startJ, ii, n2, reverse);
      if dist(vs[i], vs2[j]) > tol {
        return false;
      }
      ii := ii + 1;
    }
    return true;
  }

  /** The comparison: equal sizes, an unambiguous start, then the lockstep walk. */
  method MatchLoops(starts: seq<int>, vs: seq<int>, vs2: seq<int>, reverse: bool,
                    dist: (int, int) -> real, tol: real) returns (r: bool)
    requires |starts| == |vs|
    ensures r == SameLoopFrom(starts, vs, vs2, reverse, dist, tol)
  {
    if |vs| != |vs2| {
      return false;
    }
    var found, startI, startJ := FindStart(starts, vs2, dist, tol);
    if !found {
      return false;
    }
    r := WalkLockstep(vs, vs2, startI, startJ, reverse, dist, tol);
  }

  /**
   * Comparing a loop with itself succeeds once the start vertex is
   * unambiguous: positive tolerance, zero self-distance, and loop vertices
   * at least tol apart from one another.
   */
  lemma SameLoopReflexive(vs: seq<int>, dist: (int, int) -> real, tol: real)
    requires |vs| >= 1 && tol > 0.0
    requires forall i :: 0 <= i < |vs| ==> dist(vs[i], vs[i]) == 0.0
    requires forall i, j :: 0 <= i < |vs| && 0 <= j < |vs| && i != j ==> dist(vs[i], vs[j]) >= tol
    ensures SameLoopFrom(vs, vs, vs, false, dist, tol)
  {
    var near := NearTo(vs[0], dist, tol);
    forall i | 0 <= i < |vs| && i != 0
      ensures !near(vs[i])
    {
      assert dist(vs[0], vs[i]) >= tol;
    }
    CountNearSingle(vs, near, 0);
    assert FirstGoodStart(vs, vs, dist, tol, 0) == 0;
    LockstepWithItself(vs, dist, tol);
  }

  lemma LockstepWithItself(vs: seq<int>, dist: (int, int) -> real, tol: real)
    requires |vs| >= 1 && tol > 0.0
    requires forall i :: 0 <= i < |vs| ==> dist(vs[i], vs[i]) == 0.0
    ensures Lockstep(vs, vs, 0, 0, false, dist, tol)
  {
    forall ii | 0 <= ii < |vs|
      ensures dist(vs[(0 + ii) % |vs|], vs[PartnerIndex(0, ii, |vs|, false)]) <= tol
    {
      ModSmall(ii, |vs|);
      assert PartnerIndex(0, ii, |vs|, false) == ii;
      assert dist(vs[ii], vs[ii]) == 0.0;
    }
  }

  /** The distance used in the counterexamples: zero to itself, 10 to anything else. */
  function UnitGapDist(): (int, int) -> real {
    (a: int, b: int) => if a == b then 0.0 else 10.0
  }

  /**
   * Searching from mesh vertex i instead of loop vertex i: the one-vertex
   * loop [1] is not the same as itself, because mesh vertex 0 is far from
   * vertex 1, while searching from the loop's own vertices says it is.
   */
  lemma SameLoopStartCounterexample()
    ensures !SameLoopFrom([0], [1], [1], false, UnitGapDist(), 1.0)
    ensures SameLoopFrom([1], [1], [1], false, UnitGapDist(), 1.0)
  {
    var dist := UnitGapDist();
    var near0 := NearTo(0, dist, 1.0);
    assert !near0([1][0]);
    assert CountNear([1], near0) == 0;
    assert FirstGoodStart([0], [1], dist, 1.0, 0) == 1;
    SameLoopReflexive([1], dist, 1.0);
  }

  // ---------------------------------------------------------------------
  // Vertex spans

  /** Where the k-th vertex of a span of count vertices is stored: slot k, or count-1-k when reversed. */
  function SpanSlot(k: int, count: int, reverse: bool): int {
    if reverse then count - 1 - k else k
  }

  /** span with its first count slots (in reverse: reversed) replaced by loop vertices from starti. */
  function FillSpan(span: seq<int>, vs: seq<int>, starti: int, count: int, reverse: bool): (r: seq<int>)
    requires 0 <= starti < |vs| && count <= |span|
    ensures |r| == |span|
  {
    seq(|span|, m requires 0 <= m < |span| =>
      if m < count then vs[(starti + SpanSlot(m, count, reverse)) % |vs|] else span[m])
  }

  /** Whether slot m has been written after the first k loop steps. */
  predicate Written(m: int, k: int, count: int, reverse: bool) {
    if reverse then count - k <= m < count else m < k
  }

  /** span after the first k writes of the span-writing loop. */
  function PartialSpan(span: seq<int>, vs: seq<int>, starti: int, count: int, reverse: bool, k: int): (r: seq<int>)
    requires 0 <= starti < |vs|
    ensures |r| == |span|
  {
    seq(|span|, m requires 0 <= m < |span| =>
      if Written(m, k, count, reverse) then vs[(starti + SpanSlot(m, count, reverse)) % |vs|] else span[m])
  }

  /** One loop step writes loop vertex starti + k into slot SpanSlot(k). */
  lemma PartialSpanStep(span: seq<int>, vs: seq<int>, starti: int, count: int, reverse: bool, k: int)
    requires 0 <= starti < |vs| && 0 <= k < count
    requires 0 <= SpanSlot(k, count, reverse) < |span|
    ensures PartialSpan(span, vs, starti, count, reverse, k)[SpanSlot(k, count, reverse) := vs[(starti + k) % |vs|]]
      == PartialSpan(span, vs, starti, count, reverse, k + 1)
  {
    var a := PartialSpan(span, vs, starti, count, reverse, k)[SpanSlot(k, count, reverse) := vs[(starti + k) % |vs|]];
    var b := PartialSpan(span, vs, starti, count, reverse, k + 1);
    forall m | 0 <= m < |span| ensures a[m] == b[m] {
      if m == SpanSlot(k, count, reverse) {
        assert SpanSlot(m, count, reverse) == k;
      }
    }
  }

  /** After count steps the whole span has been written. */
  lemma PartialSpanDone(span: seq<int>, vs: seq<int>, starti: int, count: int, reverse: bool, k: int)
    requires 0 <= starti < |vs| && count <= |span| && k == if count < 0 then 0 else count
    ensures PartialSpan(span, vs, starti, count, reverse, k) == FillSpan(span, vs, starti, count, reverse)
  {
    var a := PartialSpan(span, vs, starti, count, reverse, k);
    var b := FillSpan(span, vs, starti, count, reverse);
    forall m | 0 <= m < |span| ensures a[m] == b[m] {
    }
  }

  /** The span-writing loop; a write past the end of the buffer is IndexOutOfRange. */
  method WriteSpan(span: seq<int>, vs: seq<int>, starti: int, count: int, reverse: bool)
    returns (r: Result<seq<int>, LoopError>)
    requires 0 <= starti < |vs|
    ensures count <= |span| ==> r == Ok(FillSpan(span, vs, starti, count, reverse))
    ensures count > |span| ==> r == Err(IndexOutOfRange)
  {
    var n := |vs|;
    var out := span;
    var k := 0;
    assert out == PartialSpan(span, vs, starti, count, reverse, 0);
    while k < count
      invariant k == 0 || k <= count
      invariant !reverse ==> k <= |span|
      invariant count > |span| && reverse ==> k == 0
      invariant out == PartialSpan(span, vs, starti, count, reverse, k)
    {
      var slot := if reverse then count - k - 1 else k;
      if !(0 <= slot < |out|) {
        return Err(IndexOutOfRange);
      }
      PartialSpanStep(span, vs, starti, count, reverse, k);
      out := out[slot := vs[(starti + k) % n]];
      k := k + 1;
    }
    PartialSpanDone(span, vs, starti, count, reverse, k);
    return Ok(out);
  }

  /** span grown with zero entries to hold count entries. */
  function Grown(span: seq<int>, count: int): (r: seq<int>)
    ensures |r| >= count && |r| >= |span| && r[..|span|] == span
  {
    if |span| < count then span + seq(count - |span|, _ => 0) else span
  }

  // ---------------------------------------------------------------------
  // The loop object

  class EdgeLoop {
    var Mesh: Mesh
    var Vertices: seq<int>
    var Edges: seq<int>
    var BowtieVertices: seq<int>

    constructor (mesh: Mesh)
      ensures Mesh == mesh && Vertices == [] && Edges == [] && BowtieVertices == []
    {
      Mesh := mesh;
      Vertices := [];
      Edges := [];
      BowtieVertices := [];
    }

    constructor FromParts(mesh: Mesh, vertices: seq<int>, edges: seq<int>)
      ensures Mesh == mesh && Vertices == vertices && Edges == edges && BowtieVertices == []
    {
      Mesh := mesh;
      Vertices := vertices;
      Edges := edges;
      BowtieVertices := [];
    }

    constructor Copy(copy: EdgeLoop)
      ensures Mesh == copy.Mesh && Vertices == copy.Vertices && Edges == copy.Edges
      ensures BowtieVertices == copy.BowtieVertices
    {
      Mesh := copy.Mesh;
      Vertices := copy.Vertices;
      Edges := copy.Edges;
      BowtieVertices := [];
      if |copy.BowtieVertices| > 0 {
        BowtieVertices := copy.BowtieVertices;
      }
    }

    /**
     * Builds a loop from an ordered edge list: vertex i (i >= 1) is the one
     * shared by edges i-1 and i, vertex 0 the other end of edge 0. Like the
     * source, it also overwrites this loop's own Edges with the list.
     */
    method FromEdges(mesh: Mesh, edges: seq<int>) returns (loop: EdgeLoop)
      requires |edges| >= 2 && ValidEdges(mesh, edges)
      modifies this`Edges
      ensures Edges == edges
      ensures fresh(loop) && loop.Mesh == mesh && loop.Edges == edges
      ensures loop.Vertices == LoopVerticesFromEdges(mesh, edges)
    {
      Edges := [];
      var k := 0;
      while k < |edges|
        invariant 0 <= k <= |edges| && Edges == edges[..k]
      {
        Edges := Edges + [edges[k]];
        k := k + 1;
      }
      assert Edges == edges;
      var current := seq(|Edges|, _ => 0);
      var startEv := GetEdgeV(mesh, Edges[0]);
      var prevEv := startEv;
      var i := 1;
      while i < |Edges|
        invariant 1 <= i <= |Edges| && |current| == |Edges| && Edges == edges
        invariant prevEv == GetEdgeV(mesh, edges[i - 1])
        invariant forall j :: 1 <= j < i ==>
          current[j] == FindSharedEdgeV(GetEdgeV(mesh, edges[j - 1]), GetEdgeV(mesh, edges[j]))
      {
        ModSmall(i, |Edges|);
        var nextEv := GetEdgeV(mesh, Edges[i % |Edges|]);
        current := current[i := FindSharedEdgeV(prevEv, nextEv)];
        prevEv := nextEv;
        i := i + 1;
      }
      current := current[0 := FindEdgeOtherV(startEv, current[1])];
      loop := new EdgeLoop.FromParts(mesh, current, Edges);
    }

    /**
     * Builds a loop from an ordered vertex list (the corrected copy loop):
     * optionally reverses it first when the first edge is a boundary edge
     * walked the other way, then looks up the edge after every vertex and
     * reports the first pair without one.
     */
    method FromVertices(mesh: Mesh, vertices: seq<int>, autoOrient: bool) returns (r: Result<EdgeLoop, LoopError>)
      requires autoOrient ==> |vertices| >= 2
      ensures var spec := FromVerticesSpec(mesh, vertices, autoOrient);
        r.Ok? <==> spec.Ok?
      ensures var spec := FromVerticesSpec(mesh, vertices, autoOrient);
        r.Err? ==> r.error == spec.error
      ensures var spec := FromVerticesSpec(mesh, vertices, autoOrient);
        r.Ok? ==> (fresh(r.value) && r.value.Mesh == mesh
          && r.value.Vertices == spec.value.vertices && r.value.Edges == spec.value.edges)
    {
      var current := vertices;
      if autoOrient {
        var a, b := current[0], current[1];
        var eid := FindEdge(mesh, a, b);
        if eid != InvalidID && IsBoundaryEdge(mesh, eid) {
          var ev := GetOrientedBoundaryEdgeV(mesh, eid);
          if ev.x == b && ev.y == a {
            current := Reversed(current);
          }
        }
      }
      assert current == OrientedVertices(mesh, vertices, autoOrient);
      var n := |current|;
      var edges := seq(n, _ => 0);
      var i := 0;
      while i < n
        invariant 0 <= i <= n && |edges| == n
        invariant forall k :: 0 <= k < i ==> edges[k] == EdgeAfter(mesh, current, k) != InvalidID
      {
        NextSlot(current, i);
        var a, b := current[i], current[(i + 1) % n];
        edges := edges[i := FindEdge(mesh, a, b)];
        if edges[i] == InvalidID {
          assert EdgeAfter(mesh, current, i) == InvalidID;
          assert FirstMissing(mesh, current, 0) == i;
          return Err(EdgeNotFound(a, b));
        }
        i := i + 1;
      }
      assert FirstMissing(mesh, current, 0) == n;
      assert edges == CyclicEdges(mesh, current);
      var loop := new EdgeLoop.FromParts(mesh, current, edges);
      return Ok(loop);
    }

    /** Reverses the vertex list and the edge list in place. */
    method Reverse()
      modifies this`Vertices, this`Edges
      ensures Vertices == Reversed(old(Vertices)) && Edges == Reversed(old(Edges))
    {
      Vertices := Reversed(Vertices);
      Edges := Reversed(Edges);
    }

    /** The reversal that keeps edge i between vertices i and i+1. */
    method ReverseAligned()
      modifies this`Vertices, this`Edges
      ensures Vertices == Reversed(old(Vertices)) && Edges == ReversedEdgesAligned(old(Edges))
      ensures Aligned(Mesh, old(Vertices), old(Edges)) ==> Aligned(Mesh, Vertices, Edges)
    {
      if Aligned(Mesh, Vertices, Edges) {
        ReversalKeepsAlignment(Mesh, Vertices, Edges);
      }
      Vertices := Reversed(Vertices);
      Edges := ReversedEdgesAligned(Edges);
    }

    /** True unless some consecutive pair (cyclically) is joined by a boundary edge. */
    method IsInternalLoop() returns (r: bool)
      ensures r <==> AllPairsInternal(Mesh, Vertices)
    {
      var n := |Vertices|;
      var i := 0;
      while i < n
        invariant 0 <= i <= n
        invariant forall k :: 0 <= k < i ==> PairInternal(Mesh, Vertices, k)
      {
        NextSlot(Vertices, i);
        var eid := FindEdge(Mesh, Vertices[i], Vertices[(i + 1) % n]);
        if eid == InvalidID {
          i := i + 1;
          continue;
        }
        if IsBoundaryEdge(Mesh, eid) {
          assert !PairInternal(Mesh, Vertices, i);
          return false;
        }
        i := i + 1;
      }
      return true;
    }

    /** The boundary test against testMesh when given, else against the loop's own mesh. */
    method IsBoundaryLoop(testMesh: Option<Mesh>) returns (r: bool)
      ensures r <==> AllPairsBoundary(if testMesh.Some? then testMesh.value else Mesh, Vertices)
    {
      var useMesh := if testMesh.Some? then testMesh.value else Mesh;
      r := CheckAllBoundary(useMesh, Vertices);
    }

    /**
     * The boundary test as written: the ternary picks the null pointer when
     * no mesh is given (a null dereference once there is a vertex) and the
     * loop's own mesh when one is.
     */
    method IsBoundaryLoopAsWritten(testMesh: Option<Mesh>) returns (r: Result<bool, LoopError>)
      ensures testMesh.None? ==> r == if |Vertices| == 0 then Ok(true) else Err(NullMesh)
      ensures testMesh.Some? ==> r == Ok(AllPairsBoundary(Mesh, Vertices))
    {
      var useMesh: Option<Mesh> := if testMesh.None? then testMesh else Some(Mesh);
      if useMesh.None? {
        if |Vertices| == 0 {
          return Ok(true);
        }
        return Err(NullMesh);
      }
      var b := CheckAllBoundary(useMesh.value, Vertices);
      return Ok(b);
    }

    /** First index of vID in Vertices, or size_t(-1). */
    method FindVertexIndex(vID: int) returns (r: int)
      ensures vID in Vertices ==>
        0 <= r < |Vertices| && Vertices[r] == vID && forall k :: 0 <= k < r ==> Vertices[k] != vID
      ensures vID !in Vertices ==> r == SizeMax
    {
      var n := |Vertices|;
      var i := 0;
      while i < n
        invariant 0 <= i <= n
        invariant forall k :: 0 <= k < i ==> Vertices[k] != vID
      {
        if Vertices[i] == vID {
          return i;
        }
        i := i + 1;
      }
      return SizeMax;
    }

    /** The closest loop vertex to a query point whose squared distance to vertex v is d2(v); size_t(-1) when none. */
    method FindNearestVertex(d2: int -> real) returns (r: int)
      ensures var k := NearestIndex(Vertices, d2);
        r == if k == -1 then SizeMax else k
    {
      var k := FindNearest(Vertices, d2);
      r := if k == -1 then SizeMax else k;
    }

    method CountWithinTolerance(near: int -> bool) returns (count: int, lastInTol: int)
      ensures count == CountNear(Vertices, near) && lastInTol == LastNear(Vertices, near)
      ensures lastInTol == -1 <==> count == 0
    {
      count, lastInTol := CountWithin(Vertices, near);
    }

    /** val reduced into [0, mod) by adding mod while negative, then taking the remainder. */
    static method WrapSignedIndex(val: int, mod: int) returns (r: int)
      requires mod > 0
      ensures r == val % mod
    {
      var v := val;
      ghost var k := 0;
      while v < 0
        invariant v == val + k * mod
        decreases -v
      {
        v := v + mod;
        k := k + 1;
      }
      r := v % mod;
      ModUnique(val, mod, v / mod - k, r);
    }

    /** Positional comparison with loop2, searching from loop vertex Vertices[i] (the evident intent). */
    method IsSameLoop(loop2: EdgeLoop, reverse2: bool, dist: (int, int) -> real, tol: real) returns (r: bool)
      ensures r == SameLoopFrom(Vertices, Vertices, loop2.Vertices, reverse2, dist, tol)
    {
      r := MatchLoops(Vertices, Vertices, loop2.Vertices, reverse2, dist, tol);
    }

    /** The comparison as written: the start search looks up mesh vertex i, not Vertices[i]. */
    method IsSameLoopAsWritten(loop2: EdgeLoop, reverse2: bool, dist: (int, int) -> real, tol: real) returns (r: bool)
      ensures r == SameLoopFrom(seq(|Vertices|, i => i), Vertices, loop2.Vertices, reverse2, dist, tol)
    {
      r := MatchLoops(seq(|Vertices|, i => i), Vertices, loop2.Vertices, reverse2, dist, tol);
    }

    /**
     * The span as written: the buffer is a by-value copy that is never
     * resized, so writing count entries into a shorter buffer runs off its end.
     */
    method GetVertexSpanAsWritten(starti: int, count: int, span: seq<int>, reverse: bool)
      returns (r: Result<seq<int>, LoopError>)
      ensures var n := |Vertices|;
        starti < 0 || starti >= n || count > n - 1 ==> r == Ok([])
      ensures var n := |Vertices|;
        0 <= starti < n && count <= n - 1 ==>
          r == if count > |span| then Err(IndexOutOfRange) else Ok(FillSpan(span, Vertices, starti, count, reverse))
    {
      var n := |Vertices|;
      if starti < 0 || starti >= n || count > n - 1 {
        return Ok([]);
      }
      r := WriteSpan(span, Vertices, starti, count, reverse);
    }

    /**
     * The span with the buffer grown to count entries: entry k of the span is
     * the loop vertex k places after starti, stored at count-k-1 when reversed;
     * entries beyond count keep the caller's values.
     */
    method GetVertexSpan(starti: int, count: int, span: seq<int>, reverse: bool) returns (r: seq<int>)
      ensures var n := |Vertices|;
        starti < 0 || starti >= n || count > n - 1 ==> r == []
      ensures var n := |Vertices|;
        0 <= starti < n && count <= n - 1 ==>
          |r| == |Grown(span, count)|
          && (forall k :: 0 <= k < count ==>
                r[SpanSlot(k, count, reverse)] == Vertices[(starti + k) % n])
          && (forall m :: count <= m < |span| && 0 <= m ==> r[m] == span[m])
    {
      var n := |Vertices|;
      if starti < 0 || starti >= n || count > n - 1 {
        return [];
      }
      var buffer := Grown(span, count);
      var w := WriteSpan(buffer, Vertices, starti, count, reverse);
      r := w.value;
      forall k | 0 <= k < count
        ensures r[SpanSlot(k, count, reverse)] == Vertices[(starti + k) % n]
      {
        assert SpanSlot(SpanSlot(k, count, reverse), count, reverse) == k;
      }
      forall m | count <= m < |span| && 0 <= m
        ensures r[m] == span[m]
      {
        assert buffer[..|span|][m] == span[m];
      }
    }

    /** The edge after every vertex of a vertex loop (InvalidID where none; no exception). */
    method VertexLoopToEdgeLoop(mesh: Mesh, vertexLoop: seq<int>) returns (edges: seq<int>)
      ensures edges == CyclicEdges(mesh, vertexLoop)
    {
      var n := |vertexLoop|;
      edges := seq(n, _ => 0);
      var i := 0;
      while i < n
        invariant 0 <= i <= n && |edges| == n
        invariant forall k :: 0 <= k < i ==> edges[k] == EdgeAfter(mesh, vertexLoop, k)
      {
        var v0 := vertexLoop[i];
        NextSlot(vertexLoop, i);
        var v1 := vertexLoop[(i + 1) % n];
        edges := edges[i := FindEdge(mesh, v0, v1)];
        i := i + 1;
      }
    }
  }

  /** The boundary-test loop shared by both versions of IsBoundaryLoop. */
  method CheckAllBoundary(mesh: Mesh, vs: seq<int>) returns (r: bool)
    ensures r <==> AllPairsBoundary(mesh, vs)
  {
    var n := |vs|;
    var i := 0;
    while i < n
      invariant 0 <= i <= n
      invariant forall k :: 0 <= k < i ==> PairBoundary(mesh, vs, k)
    {
      NextSlot(vs, i);
      var eid := FindEdge(mesh, vs[i], vs[(i + 1) % n]);
      if eid == InvalidID {
        i := i + 1;
        continue;
      }
      if !IsBoundaryEdge(mesh, eid) {
        assert !PairBoundary(mesh, vs, i);
        return false;
      }
      i := i + 1;
    }
    return true;
  }

  /** A triangle loop whose own mesh is all boundary but whose test mesh is all interior. */
  method BoundaryLoopIgnoresTestMesh() returns (asWritten: Result<bool, LoopError>, intended: bool)
    ensures asWritten == Ok(true) && !intended
  {
    var interior := Mesh([EdgeRecord(Index2(0, 1), false, false),
                          EdgeRecord(Index2(1, 2), false, false),
                          EdgeRecord(Index2(2, 0), false, false)]);
    var loop := new EdgeLoop.FromParts(TriangleMesh(), [0, 1, 2], [0, 1, 2]);
    assert Joins(TriangleMesh(), 0, 0, 1) && Joins(TriangleMesh(), 1, 1, 2) && Joins(TriangleMesh(), 2, 2, 0);
    assert Joins(interior, 0, 0, 1);
    assert Succ([0, 1, 2], 0) == 1;
    assert !PairBoundary(interior, [0, 1, 2], 0);
    asWritten := loop.IsBoundaryLoopAsWritten(Some(interior));
    intended := loop.IsBoundaryLoop(Some(interior));
  }

  /** Asking a three-vertex loop for a two-vertex span with an empty buffer. */
  method VertexSpanIntoEmptyBuffer() returns (asWritten: Result<seq<int>, LoopError>, intended: seq<int>)
    ensures asWritten == Err(IndexOutOfRange)
    ensures intended == [10, 11]
  {
    var loop := new EdgeLoop.FromParts(TriangleMesh(), [10, 11, 12], [0, 1, 2]);
    asWritten := loop.GetVertexSpanAsWritten(0, 2, [], false);
    intended := loop.GetVertexSpan(0, 2, [], false);
    assert intended[SpanSlot(0, 2, false)] == 10;
    assert intended[SpanSlot(1, 2, false)] == 11;
  }
}

/**
 * Index helpers over the three vertex ids of a triangle: pair tests, slot
 * searches, edge orientation and id remapping.
 */
module IndexUtil {
  import opened G3Types

  /** The three vertex ids of a triangle, in winding order. */
  type Tri = t: seq<int> | |t| == 3 witness [0, 0, 0]

  /** The unordered edge in slot j (tri[j], tri[j+1 mod 3]) is {a, b}. */
  predicate HasEdgeAt(tri: Tri, j: int, a: int, b: int)
    requires 0 <= j < 3
  {
    SamePairUnordered(a, b, tri[j], tri[(j + 1) % 3])
  }

  /** The directed edge in slot j is exactly [a, b]. */
  predicate HasOrderedEdgeAt(tri: Tri, j: int, a: int, b: int)
    requires 0 <= j < 3
  {
    tri[j] == a && tri[(j + 1) % 3] == b
  }

  /** The three ids are pairwise different (a non-degenerate triangle). */
  predicate Distinct(tri: Tri) {
    tri[0] != tri[1] && tri[1] != tri[2] && tri[0] != tri[2]
  }

  /** [a0,a1] and [b0,b1] are the same pair, ignoring order. */
  function SamePairUnordered(a0: int, a1: int, b0: int, b1: int): (r: bool)
    ensures r <==> (a0 == b0 && a1 == b1) || (a0 == b1 && a1 == b0)
  {
    if a0 == b0 then a1 == b1 else a0 == b1 && a1 == b0
  }

  lemma SamePairUnorderedSymmetric(a0: int, a1: int, b0: int, b1: int)
    ensures SamePairUnordered(a0, a1, b0, b1) == SamePairUnordered(a1, a0, b0, b1)
    ensures SamePairUnordered(a0, a1, b0, b1) == SamePairUnordered(a0, a1, b1, b0)
    ensures SamePairUnordered(a0, a1, b0, b1) == SamePairUnordered(b0, b1, a0, a1)
  {
  }

  /** Slot of a in tri, or InvalidID. */
  function FindTriIndex(a: int, tri: Tri): (r: int)
    ensures r == InvalidID <==> a !in tri
    ensures r != InvalidID ==> 0 <= r < 3 && tri[r] == a
    ensures r != InvalidID ==> forall k :: 0 <= k < r ==> tri[k] != a
  {
    if tri[0] == a then 0
    else if tri[1] == a then 1
    else if tri[2] == a then 2
    else InvalidID
  }

  /** First slot whose unordered edge is {a, b}, or InvalidID. */
  function FindEdgeIndexInTri(a: int, b: int, tri: Tri): (r: int)
    ensures r == InvalidID <==> forall k :: 0 <= k < 3 ==> !HasEdgeAt(tri, k, a, b)
    ensures r != InvalidID ==> 0 <= r < 3 && HasEdgeAt(tri, r, a, b)
    ensures r != InvalidID ==> forall k :: 0 <= k < r ==> !HasEdgeAt(tri, k, a, b)
  {
    if HasEdgeAt(tri, 0, a, b) then 0
    else if HasEdgeAt(tri, 1, a, b) then 1
    else if HasEdgeAt(tri, 2, a, b) then 2
    else InvalidID
  }

  /** Slot j with tri[j] == a and tri[j+1 mod 3] == b, or InvalidID. */
  function FindTriOrderedEdge(a: int, b: int, tri: Tri): (r: int)
    ensures r == InvalidID <==> forall k :: 0 <= k < 3 ==> !HasOrderedEdgeAt(tri, k, a, b)
    ensures r != InvalidID ==> 0 <= r < 3 && HasOrderedEdgeAt(tri, r, a, b)
    ensures r != InvalidID ==> forall k :: 0 <= k < r ==> !HasOrderedEdgeAt(tri, k, a, b)
  {
    if HasOrderedEdgeAt(tri, 0, a, b) then 0
    else if HasOrderedEdgeAt(tri, 1, a, b) then 1
    else if HasOrderedEdgeAt(tri, 2, a, b) then 2
    else InvalidID
  }

  /**
   * On a non-degenerate triangle, {a, b} is one of its edges exactly when a
   * and b are two different vertices of it.
   */
  lemma EdgeIndexFoundIffBothVertices(a: int, b: int, tri: Tri)
    requires Distinct(tri)
    ensures FindEdgeIndexInTri(a, b, tri) != InvalidID <==> a in tri && b in tri && a != b
  {
    if a in tri && b in tri && a != b {
      var i := FindTriIndex(a, tri);
      var k := FindTriIndex(b, tri);
      if k == (i + 1) % 3 {
        assert HasEdgeAt(tri, i, a, b);
      } else {
        assert HasEdgeAt(tri, k, a, b);
      }
    }
  }

  /**
   * On a non-degenerate triangle, the slot two after the matched edge holds
   * the third vertex: a vertex of the triangle that is neither a nor b.
   */
  lemma OtherSlotIsThirdVertex(a: int, b: int, tri: Tri)
    requires Distinct(tri)
    requires FindEdgeIndexInTri(a, b, tri) != InvalidID
    ensures var j := FindEdgeIndexInTri(a, b, tri);
      tri[(j + 2) % 3] != a && tri[(j + 2) % 3] != b
  {
  }

  /** Exactly one of [a, b] and [b, a] is a directed edge of a non-degenerate triangle holding both. */
  lemma OneDirectionOnly(a: int, b: int, tri: Tri)
    requires Distinct(tri) && a in tri && b in tri && a != b
    ensures (FindTriOrderedEdge(a, b, tri) != InvalidID) != (FindTriOrderedEdge(b, a, tri) != InvalidID)
  {
    var i := FindTriIndex(a, tri);
    var k := FindTriIndex(b, tri);
    if k == (i + 1) % 3 {
      assert HasOrderedEdgeAt(tri, i, a, b);
    } else {
      assert HasOrderedEdgeAt(tri, k, b, a);
    }
  }

  /** The vertex opposite the edge {a, b}: a search loop over the three slots. */
  method FindTriOtherVtx(a: int, b: int, tri: Tri) returns (r: int)
    ensures var j := FindEdgeIndexInTri(a, b, tri);
      r == if j == InvalidID then InvalidID else tri[(j + 2) % 3]
  {
    var j := 0;
    while j < 3
      invariant 0 <= j <= 3
      invariant forall k :: 0 <= k < j ==> !HasEdgeAt(tri, k, a, b)
    {
      if SamePairUnordered(a, b, tri[j], tri[(j + 1) % 3]) {
        return tri[(j + 2) % 3];
      }
      j := j + 1;
    }
    return InvalidID;
  }

  /** The same search over triangle ti of a flat array of vertex-id triples. */
  method FindTriOtherVtxInArray(a: int, b: int, triArray: seq<int>, ti: int) returns (r: int)
    requires 0 <= ti && 3 * ti + 3 <= |triArray|
    ensures var tri: Tri := triArray[3 * ti .. 3 * ti + 3];
      var j := FindEdgeIndexInTri(a, b, tri);
      r == if j == InvalidID then InvalidID else tri[(j + 2) % 3]
  {
    ghost var tri: Tri := triArray[3 * ti .. 3 * ti + 3];
    var i := 3 * ti;
    var j := 0;
    while j < 3
      invariant 0 <= j <= 3
      invariant forall k :: 0 <= k < j ==> !HasEdgeAt(tri, k, a, b)
    {
      if SamePairUnordered(a, b, triArray[i + j], triArray[i + (j + 1) % 3]) {
        assert HasEdgeAt(tri, j, a, b);
        return triArray[i + (j + 2) % 3];
      }
      assert !HasEdgeAt(tri, j, a, b);
      j := j + 1;
    }
    return InvalidID;
  }

  /** The slot opposite the edge {a, b}. */
  method FindTriOtherIndex(a: int, b: int, tri: Tri) returns (r: int)
    ensures var j := FindEdgeIndexInTri(a, b, tri);
      r == if j == InvalidID then InvalidID else (j + 2) % 3
  {
    var j := 0;
    while j < 3
      invariant 0 <= j <= 3
      invariant forall k :: 0 <= k < j ==> !HasEdgeAt(tri, k, a, b)
    {
      if SamePairUnordered(a, b, tri[j], tri[(j + 1) % 3]) {
        return (j + 2) % 3;
      }
      j := j + 1;
    }
    return InvalidID;
  }

  /** A caller asking for both: the opposite slot holds the opposite vertex. */
  method FindOtherIndexAndVtx(a: int, b: int, tri: Tri) returns (idx: int, v: int)
    ensures idx == InvalidID <==> FindEdgeIndexInTri(a, b, tri) == InvalidID
    ensures idx == InvalidID ==> v == InvalidID
    ensures idx != InvalidID ==> 0 <= idx < 3 && tri[idx] == v
  {
    idx := FindTriOtherIndex(a, b, tri);
    v := FindTriOtherVtx(a, b, tri);
  }

  /**
   * Puts [a, b] into the triangle's winding order: swaps them, and reports it,
   * when the slot before a's first slot holds b.
   */
  method OrientTriEdge(a: int, b: int, tri: Tri) returns (a': int, b': int, swapped: bool)
    ensures var k := FindTriIndex(a, tri);
      swapped <==> k != InvalidID && tri[(k + 2) % 3] == b
    ensures swapped ==> a' == b && b' == a
    ensures !swapped ==> a' == a && b' == b
    ensures Distinct(tri) && a in tri && b in tri && a != b ==>
      FindTriOrderedEdge(a', b', tri) != InvalidID
  {
    a', b', swapped := a, b, false;
    if a == tri[0] {
      if tri[2] == b {
        a', b', swapped := b, a, true;
      }
    } else if a == tri[1] {
      if tri[0] == b {
        a', b', swapped := b, a, true;
      }
    } else if a == tri[2] {
      if tri[1] == b {
        a', b', swapped := b, a, true;
      }
    }
    if Distinct(tri) && a in tri && b in tri && a != b {
      OneDirectionOnly(a, b, tri);
    }
  }

  /**
   * Finds the edge {a, b}, rewrites (a, b) into the order the triangle
   * stores it, and returns the opposite vertex; leaves (a, b) alone and
   * returns InvalidID when {a, b} is not an edge.
   */
  method OrientTriEdgeAndFindOtherVtx(a: int, b: int, tri: Tri) returns (a': int, b': int, r: int)
    ensures var j := FindEdgeIndexInTri(a, b, tri);
      if j == InvalidID then a' == a && b' == b && r == InvalidID
      else a' == tri[j] && b' == tri[(j + 1) % 3] && r == tri[(j + 2) % 3]
    ensures FindEdgeIndexInTri(a, b, tri) != InvalidID ==>
      SamePairUnordered(a, b, a', b') && FindTriOrderedEdge(a', b', tri) != InvalidID
  {
    a', b' := a, b;
    var j := 0;
    while j < 3
      invariant 0 <= j <= 3
      invariant forall k :: 0 <= k < j ==> !HasEdgeAt(tri, k, a, b)
    {
      if SamePairUnordered(a, b, tri[j], tri[(j + 1) % 3]) {
        a' := tri[j];
        b' := tri[(j + 1) % 3];
        assert HasOrderedEdgeAt(tri, j, a', b');
        return a', b', tri[(j + 2) % 3];
      }
      j := j + 1;
    }
    return a, b, InvalidID;
  }

  /** Every component of v indexes mapper. */
  predicate Mappable(v: Tri, mapper: seq<int>) {
    forall i :: 0 <= i < 3 ==> 0 <= v[i] < |mapper|
  }

  /** The triple whose components are the remapped components of v. */
  function ApplyMap(v: Tri, mapper: seq<int>): (r: Tri)
    requires Mappable(v, mapper)
    ensures forall i :: 0 <= i < 3 ==> r[i] == mapper[v[i]]
  {
    [mapper[v[0]], mapper[v[1]], mapper[v[2]]]
  }

  /** The identity remap leaves every triple unchanged. */
  lemma ApplyIdentityMap(v: Tri, n: nat)
    requires Mappable(v, seq(n, i => i))
    ensures ApplyMap(v, seq(n, i => i)) == v
  {
  }

  /** Remapping twice is remapping once by the composed map. */
  lemma ApplyMapComposes(v: Tri, m1: seq<int>, m2: seq<int>)
    requires Mappable(v, m1)
    requires forall k :: 0 <= k < |m1| ==> 0 <= m1[k] < |m2|
    ensures Mappable(ApplyMap(v, m1), m2)
    ensures ApplyMap(ApplyMap(v, m1), m2) == ApplyMap(v, seq(|m1|, k requires 0 <= k < |m1| => m2[m1[k]]))
  {
  }

  /** The in-place overload: rewrites the three components and nothing else. */
  method ApplyMapInPlace(v: array<int>, mapper: seq<int>)
    requires v.Length == 3
    requires forall i :: 0 <= i < 3 ==> 0 <= v[i] < |mapper|
    modifies v
    ensures forall i :: 0 <= i < 3 ==> v[i] == mapper[old(v[i])]
    ensures v[..] == ApplyMap(old(v[..]), mapper)
  {
    v[0] := mapper[v[0]];
    v[1] := mapper[v[1]];
    v[2] := mapper[v[2]];
  }
}

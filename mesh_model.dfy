/**
 * The part of the dynamic mesh store that loop and span extraction reads: an
 * edge table mapping each edge id to its two vertex ids, whether the edge is
 * a boundary edge, and in which order its one triangle lists the two
 * vertices. The store itself (triangles, positions, edits) is not modelled.
 */
module MeshModel {
  import opened G3Types
  import IndexUtil

  /** A pair of ids: an edge's two vertices. */
  datatype Index2 = Index2(x: int, y: int)

  predicate HasVertex(ev: Index2, v: int) {
    ev.x == v || ev.y == v
  }

  /**
   * One live edge. When isBoundary holds, reversedInTri says whether its one
   * triangle walks the edge as (v.y, v.x) rather than (v.x, v.y).
   */
  datatype EdgeRecord = EdgeRecord(v: Index2, isBoundary: bool, reversedInTri: bool)

  /** Edge ids are the positions in the table. */
  datatype Mesh = Mesh(edges: seq<EdgeRecord>)

  predicate IsEdge(mesh: Mesh, eid: int) {
    0 <= eid < |mesh.edges|
  }

  predicate ValidEdges(mesh: Mesh, eids: seq<int>) {
    forall i :: 0 <= i < |eids| ==> IsEdge(mesh, eids[i])
  }

  function GetEdgeV(mesh: Mesh, eid: int): Index2
    requires IsEdge(mesh, eid)
  {
    mesh.edges[eid].v
  }

  function IsBoundaryEdge(mesh: Mesh, eid: int): bool
    requires IsEdge(mesh, eid)
  {
    mesh.edges[eid].isBoundary
  }

  /** The edge's vertices in the order its boundary triangle lists them. */
  function GetOrientedBoundaryEdgeV(mesh: Mesh, eid: int): (r: Index2)
    requires IsEdge(mesh, eid) && IsBoundaryEdge(mesh, eid)
    ensures IndexUtil.SamePairUnordered(r.x, r.y, GetEdgeV(mesh, eid).x, GetEdgeV(mesh, eid).y)
  {
    var ev := mesh.edges[eid].v;
    if mesh.edges[eid].reversedInTri then Index2(ev.y, ev.x) else ev
  }

  /** Edge eid joins a and b, in either order. */
  predicate Joins(mesh: Mesh, eid: int, a: int, b: int)
    requires IsEdge(mesh, eid)
  {
    IndexUtil.SamePairUnordered(a, b, mesh.edges[eid].v.x, mesh.edges[eid].v.y)
  }

  /** The edge joining a and b, or InvalidID when there is none. */
  function FindEdge(mesh: Mesh, a: int, b: int): (r: int)
    ensures r == InvalidID || IsEdge(mesh, r)
    ensures r != InvalidID ==> Joins(mesh, r, a, b)
    ensures r == InvalidID <==> forall e :: IsEdge(mesh, e) ==> !Joins(mesh, e, a, b)
  {
    FindEdgeFrom(mesh, a, b, 0)
  }

  function FindEdgeFrom(mesh: Mesh, a: int, b: int, i: nat): (r: int)
    requires i <= |mesh.edges|
    decreases |mesh.edges| - i
    ensures r == InvalidID || (i <= r < |mesh.edges| && Joins(mesh, r, a, b))
    ensures r == InvalidID <==> forall e :: i <= e < |mesh.edges| ==> !Joins(mesh, e, a, b)
  {
    if i == |mesh.edges| then InvalidID
    else if Joins(mesh, i, a, b) then i
    else FindEdgeFrom(mesh, a, b, i + 1)
  }

  /** Looking an edge up does not depend on the order of its two vertices. */
  lemma FindEdgeSymmetric(mesh: Mesh, a: int, b: int)
    ensures FindEdge(mesh, a, b) == FindEdge(mesh, b, a)
  {
    FindEdgeFromSymmetric(mesh, a, b, 0);
  }

  lemma {:induction false} FindEdgeFromSymmetric(mesh: Mesh, a: int, b: int, i: nat)
    requires i <= |mesh.edges|
    decreases |mesh.edges| - i
    ensures FindEdgeFrom(mesh, a, b, i) == FindEdgeFrom(mesh, b, a, i)
  {
    if i < |mesh.edges| {
      assert Joins(mesh, i, a, b) == Joins(mesh, i, b, a);
      FindEdgeFromSymmetric(mesh, a, b, i + 1);
    }
  }

  /** A found edge's vertex pair is {a, b}. */
  lemma FoundEdgeJoins(mesh: Mesh, a: int, b: int)
    requires FindEdge(mesh, a, b) != InvalidID
    ensures var ev := GetEdgeV(mesh, FindEdge(mesh, a, b));
      (ev.x == a && ev.y == b) || (ev.x == b && ev.y == a)
  {
  }
}

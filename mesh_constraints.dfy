/**
 * Remeshing constraints: per-edge permission flags (may the edge be flipped,
 * split, collapsed), per-vertex pinning or projection, and the store that
 * maps edge and vertex ids to them, where an absent id means unconstrained.
 */
module MeshConstraintsModel {

  /** The projection surface a constraint refers to; only its identity matters here. */
  class ProjectionTarget {
  }

  /** EdgeRefineFlags: a bit set. */
  type RefineFlags = bv32

  const NoConstraint: RefineFlags := 0
  const NoFlip: RefineFlags := 1
  const NoSplit: RefineFlags := 2
  const NoCollapse: RefineFlags := 4
  const FullyConstrained: RefineFlags := NoFlip | NoSplit | NoCollapse
  /** Avoid losing this edge when a neighbour collapses; the edge itself may still collapse. */
  const PreserveTopology: RefineFlags := 8

  lemma FlagValues()
    ensures FullyConstrained == 7
    ensures NoFlip & NoSplit == 0 && NoFlip & NoCollapse == 0 && NoSplit & NoCollapse == 0
    ensures FullyConstrained & PreserveTopology == 0
  {
  }

  datatype EdgeConstraint = EdgeConstraint(refineFlags: RefineFlags, target: ProjectionTarget?, trackingSetID: int)

  /** The three EdgeConstraint constructors: no flags, flags, flags with a target; never tracked. */
  function NewEdgeConstraint(): (ec: EdgeConstraint)
    ensures ec.refineFlags == NoConstraint && ec.target == null && ec.trackingSetID == -1
  {
    EdgeConstraint(NoConstraint, null, -1)
  }

  function EdgeConstraintWithFlags(rflags: RefineFlags): (ec: EdgeConstraint)
    ensures ec.refineFlags == rflags && ec.target == null && ec.trackingSetID == -1
  {
    EdgeConstraint(rflags, null, -1)
  }

  function EdgeConstraintWithTarget(rflags: RefineFlags, target: ProjectionTarget?): (ec: EdgeConstraint)
    ensures ec.refineFlags == rflags && ec.target == target && ec.trackingSetID == -1
  {
    EdgeConstraint(rflags, target, -1)
  }

  /** Flipping is allowed exactly when the NoFlip bit is clear. */
  predicate CanFlip(ec: EdgeConstraint)
    ensures CanFlip(ec) <==> ec.refineFlags & NoFlip != NoFlip
  {
    ec.refineFlags & NoFlip == 0
  }

  /** Splitting is allowed exactly when the NoSplit bit is clear. */
  predicate CanSplit(ec: EdgeConstraint)
    ensures CanSplit(ec) <==> ec.refineFlags & NoSplit != NoSplit
  {
    ec.refineFlags & NoSplit == 0
  }

  /** Collapsing is allowed exactly when the NoCollapse bit is clear. */
  predicate CanCollapse(ec: EdgeConstraint)
    ensures CanCollapse(ec) <==> ec.refineFlags & NoCollapse != NoCollapse
  {
    ec.refineFlags & NoCollapse == 0
  }

  /** All three of NoFlip, NoSplit and NoCollapse are set; such a constraint is never unconstrained. */
  predicate NoModifications(ec: EdgeConstraint)
    ensures NoModifications(ec) <==>
      ec.refineFlags & NoFlip == NoFlip && ec.refineFlags & NoSplit == NoSplit && ec.refineFlags & NoCollapse == NoCollapse
    ensures NoModifications(ec) ==> !IsUnconstrained(ec)
  {
    ec.refineFlags & FullyConstrained == FullyConstrained
  }

  /**
   * No flag and no target: exactly when there is no target, all three
   * operations are allowed and no other flag (such as PreserveTopology) is set.
   */
  predicate IsUnconstrained(ec: EdgeConstraint)
    ensures IsUnconstrained(ec) <==>
      ec.target == null && CanFlip(ec) && CanSplit(ec) && CanCollapse(ec) && ec.refineFlags & !FullyConstrained == 0
  {
    ec.refineFlags == NoConstraint && ec.target == null
  }

  function Unconstrained(): EdgeConstraint { EdgeConstraintWithFlags(NoConstraint) }
  function NoFlips(): EdgeConstraint { EdgeConstraintWithFlags(NoFlip) }
  function FullyConstrainedEdge(): EdgeConstraint { EdgeConstraintWithFlags(FullyConstrained) }

  /** No modifications means exactly: no flip, no split and no collapse. */
  lemma NoModificationsMeansNothingAllowed(ec: EdgeConstraint)
    ensures NoModifications(ec) <==> !CanFlip(ec) && !CanSplit(ec) && !CanCollapse(ec)
  {
  }

  /** Setting or clearing PreserveTopology changes none of the four permission tests. */
  lemma PreserveTopologyIndependent(ec: EdgeConstraint)
    ensures var with := ec.(refineFlags := ec.refineFlags | PreserveTopology);
      CanFlip(with) == CanFlip(ec) && CanSplit(with) == CanSplit(ec)
      && CanCollapse(with) == CanCollapse(ec) && NoModifications(with) == NoModifications(ec)
    ensures var without := ec.(refineFlags := ec.refineFlags & !PreserveTopology);
      CanFlip(without) == CanFlip(ec) && CanSplit(without) == CanSplit(ec)
      && CanCollapse(without) == CanCollapse(ec) && NoModifications(without) == NoModifications(ec)
  {
  }

  /** Each permission test reads its own bit only. */
  lemma PermissionBitsIndependent(ec: EdgeConstraint)
    ensures CanFlip(ec.(refineFlags := ec.refineFlags | NoSplit | NoCollapse)) == CanFlip(ec)
    ensures CanSplit(ec.(refineFlags := ec.refineFlags | NoFlip | NoCollapse)) == CanSplit(ec)
    ensures CanCollapse(ec.(refineFlags := ec.refineFlags | NoFlip | NoSplit)) == CanCollapse(ec)
  {
  }

  /** What the three factories permit. */
  lemma FactoryPermissions()
    ensures IsUnconstrained(Unconstrained()) && CanFlip(Unconstrained()) && CanSplit(Unconstrained())
      && CanCollapse(Unconstrained())
    ensures !CanFlip(NoFlips()) && CanSplit(NoFlips()) && CanCollapse(NoFlips()) && !IsUnconstrained(NoFlips())
    ensures NoModifications(FullyConstrainedEdge()) && !IsUnconstrained(FullyConstrainedEdge())
    ensures Unconstrained() == NewEdgeConstraint()
  {
  }

  /** InvalidSetID: clients read every negative set id as "no set". */
  const InvalidSetID: int := -1

  datatype VertexConstraint = VertexConstraint(fixed: bool, fixedSetID: int, target: ProjectionTarget?)

  function NewVertexConstraint(): (vc: VertexConstraint)
    ensures !vc.fixed && vc.fixedSetID == InvalidSetID && vc.target == null
  {
    VertexConstraint(false, InvalidSetID, null)
  }

  function VertexConstraintFixed(isFixed: bool, setID: int): (vc: VertexConstraint)
    ensures vc.fixed == isFixed && vc.fixedSetID == setID && vc.target == null
  {
    VertexConstraint(isFixed, setID, null)
  }

  function VertexConstraintOnTarget(target: ProjectionTarget?): (vc: VertexConstraint)
    ensures !vc.fixed && vc.fixedSetID == InvalidSetID && vc.target == target
  {
    VertexConstraint(false, InvalidSetID, target)
  }

  function UnconstrainedVertex(): VertexConstraint { VertexConstraintFixed(false, InvalidSetID) }
  function PinnedVertex(): VertexConstraint { VertexConstraintFixed(true, InvalidSetID) }

  /** Fixed and Target are mutually exclusive in everything the constructors build. */
  lemma FixedExcludesTarget(isFixed: bool, setID: int, target: ProjectionTarget?)
    ensures var vc := VertexConstraintFixed(isFixed, setID); !(vc.fixed && vc.target != null)
    ensures var vc := VertexConstraintOnTarget(target); !(vc.fixed && vc.target != null)
    ensures UnconstrainedVertex() == NewVertexConstraint()
    ensures PinnedVertex().fixed && PinnedVertex().fixedSetID == InvalidSetID
  {
  }

  // ---------------------------------------------------------------------
  // Ascending key order (the iteration order of std::map)

  lemma NonEmptyHasElement(s: set<int>)
    requires s != {}
    ensures exists x :: x in s
  {
    if forall x :: x !in s {
      assert false;
    }
  }

  /** The least element of a non-empty finite set. */
  ghost function SetMin(s: set<int>): (m: int)
    requires s != {}
    ensures m in s && forall x :: x in s ==> m <= x
  {
    NonEmptyHasElement(s);
    var x :| x in s;
    var rest := s - {x};
    assert forall y :: y in s ==> y == x || y in rest;
    if rest == {} then
      assert forall y :: y !in rest;
      x
    else
      var m0 := SetMin(rest);
      if x < m0 then x else m0
  }

  predicate StrictlyIncreasing(r: seq<int>) {
    forall i, j :: 0 <= i < j < |r| ==> r[i] < r[j]
  }

  /** r holds the elements of s, each once, in ascending order. */
  ghost predicate ListsAscending(r: seq<int>, s: set<int>) {
    StrictlyIncreasing(r) && forall x :: x in r <==> x in s
  }

  /** A listing is empty exactly when the set is. */
  lemma ListingEmpty(r: seq<int>, s: set<int>)
    requires ListsAscending(r, s)
    ensures r == [] <==> s == {}
  {
    if r != [] {
      assert r[0] in r;
    }
    if s != {} {
      NonEmptyHasElement(s);
      var x :| x in s;
      assert x in r;
    }
  }

  /** A listing starts with the least element of the set. */
  lemma ListingHead(r: seq<int>, s: set<int>)
    requires ListsAscending(r, s) && r != []
    ensures r[0] in s && forall x :: x in s ==> r[0] <= x
  {
    assert r[0] in r;
    forall x | x in s ensures r[0] <= x {
      var i :| 0 <= i < |r| && r[i] == x;
      if i > 0 {
        assert r[0] < r[i];
      }
    }
  }

  /** Dropping the head of a listing lists the rest of the set. */
  lemma ListingTail(r: seq<int>, s: set<int>)
    requires ListsAscending(r, s) && r != []
    ensures ListsAscending(r[1..], s - {r[0]})
  {
    forall x | x in r[1..] ensures x in s - {r[0]} {
      var i :| 0 <= i < |r[1..]| && r[1..][i] == x;
      assert r[i + 1] == x;
    }
    forall x | x in s - {r[0]} ensures x in r[1..] {
      var i :| 0 <= i < |r| && r[i] == x;
      assert r[1..][i - 1] == x;
    }
  }

  /** A set has only one ascending listing. */
  lemma {:induction false} ListingUnique(r1: seq<int>, r2: seq<int>, s: set<int>)
    requires ListsAscending(r1, s) && ListsAscending(r2, s)
    decreases |r1|
    ensures r1 == r2
  {
    ListingEmpty(r1, s);
    ListingEmpty(r2, s);
    if r1 != [] {
      ListingHead(r1, s);
      ListingHead(r2, s);
      var m := r1[0];
      ListingTail(r1, s);
      ListingTail(r2, s);
      ListingUnique(r1[1..], r2[1..], s - {m});
      assert r1 == [m] + r1[1..] && r2 == [m] + r2[1..];
    }
  }

  /** Appending an element above all listed ones lists the set grown by it. */
  lemma ListingAppend(r: seq<int>, s: set<int>, k: int)
    requires ListsAscending(r, s) && forall x :: x in s ==> x < k
    ensures ListsAscending(r + [k], s + {k})
  {
    forall i, j | 0 <= i < j < |r + [k]| ensures (r + [k])[i] < (r + [k])[j] {
      if j == |r| {
        assert r[i] in r;
        assert r[i] in s;
      }
    }
  }

  /** The ids among keys whose edge constraint tracks set setID. */
  ghost function Matching(edges: map<int, EdgeConstraint>, keys: set<int>, setID: int): set<int> {
    set e | e in keys && e in edges && edges[e].trackingSetID == setID
  }

  /** The edge ids of a constraint map whose tracking set is setID. */
  ghost function WithSetID(edges: map<int, EdgeConstraint>, setID: int): set<int> {
    Matching(edges, edges.Keys, setID)
  }

  ghost predicate AllBelow(lo: set<int>, hi: set<int>) {
    forall d, x :: d in lo && x in hi ==> d < x
  }

  /** Moving the least remaining key to the visited side keeps the split ordered. */
  lemma KeySplitStep(keys: set<int>, done: set<int>, remaining: set<int>, k: int)
    requires remaining <= keys && done == keys - remaining && AllBelow(done, remaining)
    requires k in remaining && forall x :: x in remaining ==> k <= x
    ensures remaining - {k} <= keys && done + {k} == keys - (remaining - {k})
    ensures AllBelow(done + {k}, remaining - {k})
    ensures |remaining - {k}| < |remaining|
  {
  }

  /** The smallest key of a non-empty set: the next key a std::map iteration visits. */
  method LeastKey(keys: set<int>) returns (k: int)
    requires keys != {}
    ensures k in keys && forall x :: x in keys ==> k <= x
  {
    ghost var least := SetMin(keys);
    k :| k in keys && forall x :: x in keys ==> k <= x;
  }

  /**
   * Visiting key k, above every key already visited, extends the listing of
   * the matching ids by k exactly when k's constraint tracks setID.
   */
  lemma MatchingStep(edges: map<int, EdgeConstraint>, done: set<int>, listed: seq<int>, k: int, setID: int)
    requires k in edges && forall d :: d in done ==> d < k
    requires ListsAscending(listed, Matching(edges, done, setID))
    ensures edges[k].trackingSetID == setID ==> ListsAscending(listed + [k], Matching(edges, done + {k}, setID))
    ensures edges[k].trackingSetID != setID ==> ListsAscending(listed, Matching(edges, done + {k}, setID))
  {
    var before := Matching(edges, done, setID);
    if edges[k].trackingSetID == setID {
      assert Matching(edges, done + {k}, setID) == before + {k};
      ListingAppend(listed, before, k);
    } else {
      assert Matching(edges, done + {k}, setID) == before;
    }
  }

  lemma SizeOfNonEmpty<V>(m: map<int, V>, k: int)
    requires k in m
    ensures |m| > 0
  {
    assert k in m.Keys;
    assert |m.Keys| == |m|;
  }

  class MeshConstraints {
    var Edges: map<int, EdgeConstraint>
    var Vertices: map<int, VertexConstraint>
    var setIdCounter: int

    constructor ()
      ensures Edges == map[] && Vertices == map[] && setIdCounter == 0
    {
      Edges := map[];
      Vertices := map[];
      setIdCounter := 0;
    }

    /** Hands out the counter's value and advances it. */
    method AllocateSetID() returns (id: int)
      modifies this`setIdCounter
      ensures id == old(setIdCounter) && setIdCounter == id + 1
    {
      id := setIdCounter;
      setIdCounter := setIdCounter + 1;
    }

    /** An edge with a stored constraint makes the store non-empty. */
    predicate HasEdgeConstraint(eid: int)
      reads this
      ensures HasEdgeConstraint(eid) ==> HasConstraints()
    {
      if eid in Edges then SizeOfNonEmpty(Edges, eid); true else false
    }

    /** The stored constraint, or Unconstrained for an id with none. */
    function GetEdgeConstraint(eid: int): (ec: EdgeConstraint)
      reads this
      ensures HasEdgeConstraint(eid) ==> ec == Edges[eid]
      ensures !HasEdgeConstraint(eid) ==> ec == Unconstrained() && IsUnconstrained(ec)
    {
      if eid in Edges then Edges[eid] else Unconstrained()
    }

    method SetOrUpdateEdgeConstraint(eid: int, ec: EdgeConstraint)
      modifies this`Edges
      ensures Edges == old(Edges)[eid := ec]
      ensures HasEdgeConstraint(eid) && GetEdgeConstraint(eid) == ec && HasConstraints()
      ensures forall e :: e != eid ==> GetEdgeConstraint(e) == old(GetEdgeConstraint(e))
    {
      Edges := Edges[eid := ec];
      SizeOfNonEmpty(Edges, eid);
    }

    method ClearEdgeConstraint(eid: int)
      modifies this`Edges
      ensures Edges == old(Edges) - {eid}
      ensures !HasEdgeConstraint(eid) && GetEdgeConstraint(eid) == Unconstrained()
      ensures forall e :: e != eid ==> GetEdgeConstraint(e) == old(GetEdgeConstraint(e))
    {
      Edges := Edges - {eid};
    }

    /**
     * Appends, in ascending id order and without clearing result, every edge
     * id whose constraint tracks set setID.
     */
    method FindConstrainedEdgesBySetID(setID: int, result: seq<int>) returns (out: seq<int>)
      ensures |out| >= |result| && out[..|result|] == result
      ensures ListsAscending(out[|result|..], WithSetID(Edges, setID))
    {
      var edges := Edges;
      out := result;
      var remaining := edges.Keys;
      ghost var done: set<int> := {};
      ghost var listed: seq<int> := [];
      assert Matching(edges, done, setID) == {};
      while remaining != {}
        invariant remaining <= edges.Keys && done == edges.Keys - remaining
        invariant AllBelow(done, remaining)
        invariant out == result + listed && ListsAscending(listed, Matching(edges, done, setID))
        decreases |remaining|
      {
        var k := LeastKey(remaining);
        MatchingStep(edges, done, listed, k, setID);
        KeySplitStep(edges.Keys, done, remaining, k);
        if edges[k].trackingSetID == setID {
          out := out + [k];
          listed := listed + [k];
        }
        remaining := remaining - {k};
        done := done + {k};
      }
      assert done == edges.Keys;
      assert out[|result|..] == listed;
    }

    /** A vertex with a stored constraint makes the store non-empty. */
    predicate HasVertexConstraint(vid: int)
      reads this
      ensures HasVertexConstraint(vid) ==> HasConstraints()
    {
      if vid in Vertices then SizeOfNonEmpty(Vertices, vid); true else false
    }

    /** The stored constraint, or the unconstrained vertex for an id with none. */
    function GetVertexConstraint(vid: int): (vc: VertexConstraint)
      reads this
      ensures HasVertexConstraint(vid) ==> vc == Vertices[vid]
      ensures !HasVertexConstraint(vid) ==> vc == UnconstrainedVertex() && !vc.fixed && vc.target == null
    {
      if vid in Vertices then Vertices[vid] else UnconstrainedVertex()
    }

    /** The out-parameter form: false and vc untouched for an absent id. */
    method TryGetVertexConstraint(vid: int, vc: VertexConstraint) returns (found: bool, vcOut: VertexConstraint)
      ensures found <==> HasVertexConstraint(vid)
      ensures found ==> vcOut == Vertices[vid]
      ensures !found ==> vcOut == vc
      ensures vcOut == if found then GetVertexConstraint(vid) else vc
    {
      if vid !in Vertices {
        return false, vc;
      }
      return true, Vertices[vid];
    }

    method SetOrUpdateVertexConstraint(vid: int, vc: VertexConstraint)
      modifies this`Vertices
      ensures Vertices == old(Vertices)[vid := vc]
      ensures HasVertexConstraint(vid) && GetVertexConstraint(vid) == vc && HasConstraints()
      ensures forall v :: v != vid ==> GetVertexConstraint(v) == old(GetVertexConstraint(v))
    {
      Vertices := Vertices[vid := vc];
      SizeOfNonEmpty(Vertices, vid);
    }

    method ClearVertexConstraint(vid: int)
      modifies this`Vertices
      ensures Vertices == old(Vertices) - {vid}
      ensures !HasVertexConstraint(vid) && GetVertexConstraint(vid) == UnconstrainedVertex()
      ensures forall v :: v != vid ==> GetVertexConstraint(v) == old(GetVertexConstraint(v))
    {
      Vertices := Vertices - {vid};
    }

    /** Some edge or some vertex has a stored constraint. */
    predicate HasConstraints()
      reads this
      ensures HasConstraints() <==> Edges != map[] || Vertices != map[]
    {
      |Edges| > 0 || |Vertices| > 0
    }
  }

  /** Successive allocations from a fresh store hand out 0, 1, 2. */
  method AllocateThreeSetIDs() returns (a: int, b: int, c: int)
    ensures a == 0 && b == 1 && c == 2
  {
    var mc := new MeshConstraints();
    a := mc.AllocateSetID();
    b := mc.AllocateSetID();
    c := mc.AllocateSetID();
  }
}

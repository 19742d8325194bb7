/**
 * A map between old and new element ids, in one of three modes: Dense (two
 * vectors indexed by id, initialised to InvalidID), Sparse (two ordered
 * dictionaries) or Shift (a constant offset). Requests that do not fit the
 * mode (Resize on a Sparse map, SetMap on a Shift map, ...) only raise a
 * developer assertion that is compiled out, so here they leave the map as is.
 */
module IDMaps {
  import opened G3Types

  datatype IDMapType = Dense | Sparse | Shift

  datatype Direction = OldToNew | NewToOld

  /** The range of the source's unsigned int parameters. */
  type UInt32 = x: int | 0 <= x < 0x1_0000_0000

  /** An int argument passed where an unsigned int is expected: wraps modulo 2^32. */
  function AsUnsigned(n: int): (u: UInt32)
    ensures 0 <= n < 0x1_0000_0000 ==> u == n
    ensures n < 0 && -0x1_0000_0000 <= n ==> u == n + 0x1_0000_0000
  {
    n % 0x1_0000_0000
  }

  /** n entries, each InvalidID. */
  function InvalidIDs(n: nat): (s: seq<int>)
    ensures |s| == n && forall i :: 0 <= i < n ==> s[i] == InvalidID
  {
    seq(n, _ => InvalidID)
  }

  class IDMap {
    var mapType: IDMapType
    var toNew: seq<int>
    var toOld: seq<int>
    var toNewMap: map<int, int>
    var toOldMap: map<int, int>
    var shift: int

    /** The default map is Sparse and empty. */
    constructor ()
      ensures mapType == Sparse && toNewMap == map[] && toOldMap == map[]
      ensures toNew == [] && toOld == [] && shift == 0
    {
      mapType := Sparse;
      toNew, toOld := [], [];
      toNewMap, toOldMap := map[], map[];
      shift := 0;
    }

    /**
     * A map of the given mode: a Shift map shifts by nInitial, a Dense map is
     * sized nInitial both ways (read as unsigned), a Sparse map starts empty.
     */
    constructor OfType(eType: IDMapType, nInitial: int)
      ensures mapType == eType && toNewMap == map[] && toOldMap == map[]
      ensures shift == if eType == Shift then nInitial else 0
      ensures eType == Dense ==> toNew == InvalidIDs(AsUnsigned(nInitial)) && toOld == InvalidIDs(AsUnsigned(nInitial))
      ensures eType != Dense ==> toNew == [] && toOld == []
    {
      mapType := eType;
      toNew, toOld := [], [];
      toNewMap, toOldMap := map[], map[];
      shift := 0;
      if eType == Shift {
        shift := nInitial;
      } else if eType == Dense {
        var n := AsUnsigned(nInitial);
        toNew := InvalidIDs(n);
        toOld := InvalidIDs(n);
      }
    }

    /** A Dense map sized for nOldSize old ids and nNewSize new ids, all unmapped. */
    constructor WithSizes(nOldSize: UInt32, nNewSize: UInt32)
      ensures mapType == Dense && shift == 0 && toNewMap == map[] && toOldMap == map[]
      ensures toNew == InvalidIDs(nOldSize) && toOld == InvalidIDs(nNewSize)
    {
      mapType := Dense;
      toNewMap, toOldMap := map[], map[];
      shift := 0;
      toNew := InvalidIDs(nOldSize);
      toOld := InvalidIDs(nNewSize);
    }

    function Type(): IDMapType
      reads this
    {
      mapType
    }

    /** Empties the dictionaries of a Sparse map or the vectors of a Dense map. */
    method Clear()
      modifies this`toNew, this`toOld, this`toNewMap, this`toOldMap
      ensures mapType == Sparse ==> toNewMap == map[] && toOldMap == map[] && toNew == old(toNew) && toOld == old(toOld)
      ensures mapType == Dense ==> toNew == [] && toOld == [] && toNewMap == old(toNewMap) && toOldMap == old(toOldMap)
      ensures mapType == Shift ==> (toNew == old(toNew) && toOld == old(toOld)
        && toNewMap == old(toNewMap) && toOldMap == old(toOldMap))
    {
      if mapType == Shift {
      } else if mapType == Sparse {
        toNewMap := map[];
        toOldMap := map[];
      } else {
        toNew := [];
        toOld := [];
      }
    }

    /** For a Dense map: nOldSize and nNewSize entries, every one InvalidID. */
    method Resize(nOldSize: UInt32, nNewSize: UInt32)
      modifies this`toNew, this`toOld
      ensures mapType == Dense ==> toNew == InvalidIDs(nOldSize) && toOld == InvalidIDs(nNewSize)
      ensures mapType != Dense ==> toNew == old(toNew) && toOld == old(toOld)
    {
      if mapType == Shift || mapType == Sparse {
      } else {
        toNew := InvalidIDs(nOldSize);
        toOld := InvalidIDs(nNewSize);
      }
    }

    /** Dense mode: an old id the map has room for. */
    predicate CanGetNew(vOld: int)
      reads this
    {
      mapType != Dense || 0 <= vOld < |toNew|
    }

    /** Dense mode: a new id the map has room for. */
    predicate CanGetOld(vNew: int)
      reads this
    {
      mapType != Dense || 0 <= vNew < |toOld|
    }

    /**
     * The size of the old-id range as written: in Dense mode it reports the
     * size of the Sparse dictionary, which a Dense map never fills.
     */
    function OldSizeAsWritten(): (r: nat)
      reads this
      ensures mapType != Dense ==> r == 0
      ensures mapType == Dense ==> r == |toNewMap|
    {
      if mapType == Dense then |toNewMap| else 0
    }

    function NewSizeAsWritten(): (r: nat)
      reads this
      ensures mapType != Dense ==> r == 0
      ensures mapType == Dense ==> r == |toOldMap|
    {
      if mapType == Dense then |toOldMap| else 0
    }

    /** The number of old ids a Dense map has room for: exactly those below it. */
    function OldSize(): (r: nat)
      reads this
      ensures mapType != Dense ==> r == 0
      ensures mapType == Dense ==> forall x :: 0 <= x < r <==> CanGetNew(x)
    {
      if mapType == Dense then |toNew| else 0
    }

    /** The number of new ids a Dense map has room for: exactly those below it. */
    function NewSize(): (r: nat)
      reads this
      ensures mapType != Dense ==> r == 0
      ensures mapType == Dense ==> forall x :: 0 <= x < r <==> CanGetOld(x)
    {
      if mapType == Dense then |toOld| else 0
    }

    method SetShift(nShift: int)
      modifies this`shift
      ensures shift == nShift
    {
      shift := nShift;
    }

    /** The old id mapped to vNew; InvalidID for an id a Sparse map never received. */
    function GetOld(vNew: int): (r: int)
      reads this
      requires CanGetOld(vNew)
      ensures mapType == Shift ==> r == vNew - shift
      ensures mapType == Sparse && vNew !in toOldMap ==> r == InvalidID
      ensures mapType == Sparse && vNew in toOldMap ==> r == toOldMap[vNew]
      ensures mapType == Dense ==> r == toOld[vNew]
    {
      if mapType == Shift then vNew - shift
      else if mapType == Sparse then (if vNew in toOldMap then toOldMap[vNew] else InvalidID)
      else toOld[vNew]
    }

    /** The new id of vOld; in Shift mode GetOld undoes it. */
    function GetNew(vOld: int): (r: int)
      reads this
      requires CanGetNew(vOld)
      ensures mapType == Shift ==> r == vOld + shift && GetOld(r) == vOld
      ensures mapType == Sparse && vOld !in toNewMap ==> r == InvalidID
      ensures mapType == Sparse && vOld in toNewMap ==> r == toNewMap[vOld]
      ensures mapType == Dense ==> r == toNew[vOld]
    {
      if mapType == Shift then vOld + shift
      else if mapType == Sparse then (if vOld in toNewMap then toNewMap[vOld] else InvalidID)
      else toNew[vOld]
    }

    /** GetNew or GetOld, as the direction says. */
    function Lookup(v: int, dir: Direction): int
      reads this
      requires if dir == OldToNew then CanGetNew(v) else CanGetOld(v)
    {
      if dir == OldToNew then GetNew(v) else GetOld(v)
    }

    /**
     * Records vOld -> vNew, and vNew -> vOld unless vNew is InvalidID, so
     * that GetNew(vOld) is vNew and GetOld(vNew) is vOld. Nothing else moves.
     */
    method SetMap(vOld: int, vNew: int)
      requires mapType == Dense ==> 0 <= vOld < |toNew| && (vNew != InvalidID ==> 0 <= vNew < |toOld|)
      modifies this`toNew, this`toOld, this`toNewMap, this`toOldMap
      ensures vNew == InvalidID ==> toOld == old(toOld) && toOldMap == old(toOldMap)
      ensures mapType == Sparse ==> (toNewMap == old(toNewMap)[vOld := vNew]
        && toOldMap == (if vNew != InvalidID then old(toOldMap)[vNew := vOld] else old(toOldMap))
        && toNew == old(toNew) && toOld == old(toOld))
      ensures mapType == Dense ==> (toNew == old(toNew)[vOld := vNew]
        && toOld == (if vNew != InvalidID then old(toOld)[vNew := vOld] else old(toOld))
        && toNewMap == old(toNewMap) && toOldMap == old(toOldMap))
      ensures mapType == Shift ==> (toNew == old(toNew) && toOld == old(toOld)
        && toNewMap == old(toNewMap) && toOldMap == old(toOldMap))
      ensures mapType != Shift ==> GetNew(vOld) == vNew
      ensures mapType != Shift && vNew != InvalidID ==> GetOld(vNew) == vOld
    {
      if mapType == Shift {
      } else if mapType == Sparse {
        toNewMap := toNewMap[vOld := vNew];
        if vNew != InvalidID {
          toOldMap := toOldMap[vNew := vOld];
        }
      } else {
        toNew := toNew[vOld := vNew];
        if vNew != InvalidID {
          toOld := toOld[vNew := vOld];
        }
      }
    }

    /** Every entry of a caller's buffer can be looked up in this direction. */
    predicate CanApply(v: seq<int>, dir: Direction)
      reads this
    {
      forall k :: 0 <= k < |v| ==> if dir == OldToNew then CanGetNew(v[k]) else CanGetOld(v[k])
    }

    /**
     * Replaces every element of v by its image in the given direction; with
     * a zero shift nothing is written at all.
     */
    method Apply(v: array<int>, dir: Direction)
      requires CanApply(v[..], dir)
      modifies v
      ensures forall k :: 0 <= k < v.Length ==> v[k] == Lookup(old(v[k]), dir)
      ensures mapType == Shift && shift == 0 ==> v[..] == old(v[..])
    {
      if mapType == Shift {
        if shift == 0 {
          return;
        }
        var nShift := if dir == OldToNew then shift else -shift;
        var k := 0;
        while k < v.Length
          invariant 0 <= k <= v.Length
          invariant forall j :: 0 <= j < k ==> v[j] == Lookup(old(v[j]), dir)
          invariant forall j :: k <= j < v.Length ==> v[j] == old(v[j])
        {
          v[k] := v[k] + nShift;
          k := k + 1;
        }
      } else if mapType == Sparse {
        var m := if dir == OldToNew then toNewMap else toOldMap;
        var k := 0;
        while k < v.Length
          invariant 0 <= k <= v.Length
          invariant forall j :: 0 <= j < k ==> v[j] == Lookup(old(v[j]), dir)
          invariant forall j :: k <= j < v.Length ==> v[j] == old(v[j])
        {
          v[k] := if v[k] in m then m[v[k]] else InvalidID;
          k := k + 1;
        }
      } else {
        var m := if dir == OldToNew then toNew else toOld;
        var k := 0;
        while k < v.Length
          invariant 0 <= k <= v.Length
          invariant forall j :: 0 <= j < k ==> v[j] == Lookup(old(v[j]), dir)
          invariant forall j :: k <= j < v.Length ==> v[j] == old(v[j])
        {
          assert if dir == OldToNew then CanGetNew(v[k]) else CanGetOld(v[k]);
          v[k] := m[v[k]];
          k := k + 1;
        }
      }
    }

    /** In Shift mode, GetNew and GetOld undo each other. */
    lemma ShiftRoundTrips(v: int)
      requires mapType == Shift
      ensures GetOld(GetNew(v)) == v && GetNew(GetOld(v)) == v
    {
    }
  }

  /**
   * A Dense map built for 3 old and 4 new ids reports sizes 0 and 0 as
   * written, while it has room for exactly 3 and 4 ids.
   */
  method DenseSizesReadSparseMaps() returns (oldAsWritten: nat, newAsWritten: nat, oldSize: nat, newSize: nat)
    ensures oldAsWritten == 0 && newAsWritten == 0
    ensures oldSize == 3 && newSize == 4
  {
    var m := new IDMap.WithSizes(3, 4);
    oldAsWritten := m.OldSizeAsWritten();
    newAsWritten := m.NewSizeAsWritten();
    oldSize := m.OldSize();
    newSize := m.NewSize();
  }

  /**
   * A fresh Sparse map, after SetMap(2, 7) and SetMap(5, InvalidID): 2 maps
   * to 7 and back, 5 maps to InvalidID, InvalidID has no old id, and ids
   * never mapped give InvalidID both ways.
   */
  method SparseMapScenario() returns (n2: int, o7: int, n5: int, oInvalid: int, n9: int, o9: int)
    ensures n2 == 7 && o7 == 2 && n5 == InvalidID && oInvalid == InvalidID
    ensures n9 == InvalidID && o9 == InvalidID
  {
    var m := new IDMap();
    m.SetMap(2, 7);
    m.SetMap(5, InvalidID);
    n2 := m.GetNew(2);
    o7 := m.GetOld(7);
    n5 := m.GetNew(5);
    oInvalid := m.GetOld(InvalidID);
    n9 := m.GetNew(9);
    o9 := m.GetOld(9);
  }
}

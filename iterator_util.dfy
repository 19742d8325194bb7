/**
 * Iterator adaptors over a base range: one that maps each element, one that
 * skips the elements a filter rejects, and one that expands each element
 * into zero or more outputs through a step function with an int state. A
 * base iterator is a position in a sequence; the base range ends at `end`.
 */
module IteratorUtil {
  import opened G3Types

  datatype IteratorError = DereferencedEnd

  // ---------------------------------------------------------------------
  // mapped_iterator

  class MappedIterator<A, B> {
    const base: seq<A>
    const mapF: A -> B
    var cur: int

    constructor (base: seq<A>, cur: int, mapF: A -> B)
      ensures this.base == base && this.cur == cur && this.mapF == mapF
    {
      this.base := base;
      this.cur := cur;
      this.mapF := mapF;
    }

    /** Two iterators are equal when their base positions are; the functions are not compared. */
    predicate Equals(other: MappedIterator<A, B>)
      reads this, other
    {
      cur == other.cur
    }

    /** The mapped value of the current base element. */
    function Deref(): (r: B)
      reads this
      requires 0 <= cur < |base|
      ensures r == mapF(base[cur])
    {
      mapF(base[cur])
    }

    method Next()
      requires cur < |base|
      modifies this`cur
      ensures cur == old(cur) + 1
    {
      cur := cur + 1;
    }
  }

  /**
   * The values a range-based loop produces from base position c to end:
   * the dereferenced value at c, then those after one Next.
   */
  function MappedVisited<A, B>(base: seq<A>, mapF: A -> B, c: int, end: int): (r: seq<B>)
    requires 0 <= c <= end <= |base|
    decreases end - c
  {
    if c == end then [] else [mapF(base[c])] + MappedVisited(base, mapF, c + 1, end)
  }

  /**
   * Walking a mapped iterator from `from` to `end` yields the mapped
   * elements of base[from..end], one for each, in order.
   */
  lemma {:induction false} MappedVisitedIsMap<A, B>(base: seq<A>, mapF: A -> B, from: int, end: int)
    requires 0 <= from <= end <= |base|
    decreases end - from
    ensures var r := MappedVisited(base, mapF, from, end);
      |r| == end - from && forall i :: 0 <= i < |r| ==> r[i] == mapF(base[from + i])
  {
    if from < end {
      MappedVisitedIsMap(base, mapF, from + 1, end);
      var r := MappedVisited(base, mapF, from, end);
      var rest := MappedVisited(base, mapF, from + 1, end);
      assert r == [mapF(base[from])] + rest;
      forall i | 0 <= i < |r|
        ensures r[i] == mapF(base[from + i])
      {
        if i > 0 {
          assert r[i] == rest[i - 1];
        }
      }
    }
  }

  // ---------------------------------------------------------------------
  // filtered_iterator

  /** The first position after c whose element passes the filter, or end. */
  function NextMatch<T>(base: seq<T>, end: int, filter: T -> bool, c: int): (r: int)
    requires 0 <= c < end <= |base|
    decreases end - c
    ensures c < r <= end && (r < end ==> filter(base[r]))
    ensures forall k :: c < k < r ==> !filter(base[k])
  {
    if c + 1 == end || filter(base[c + 1]) then c + 1 else NextMatch(base, end, filter, c + 1)
  }

  /** The elements of base[from..end] that pass the filter, in order. */
  function Filtered<T>(base: seq<T>, from: int, end: int, filter: T -> bool): (r: seq<T>)
    requires 0 <= from <= end <= |base|
    decreases end - from
    ensures |r| <= end - from && forall i :: 0 <= i < |r| ==> filter(r[i])
  {
    if from == end then []
    else (if filter(base[from]) then [base[from]] else []) + Filtered(base, from + 1, end, filter)
  }

  /**
   * Where the constructor leaves the iterator, as written: it tests the
   * element at cur before comparing with end, so a range with cur at end
   * dereferences the end position.
   */
  function FilteredStartAsWritten<T>(base: seq<T>, cur: int, end: int, filter: T -> bool): (r: Result<int, IteratorError>)
    requires 0 <= cur <= end <= |base|
    ensures cur == end <==> r == Err(DereferencedEnd)
    ensures r.Ok? ==> r.value == FilteredStart(base, cur, end, filter)
  {
    if cur == end then Err(DereferencedEnd)
    else if filter(base[cur]) then Ok(cur)
    else Ok(NextMatch(base, end, filter, cur))
  }

  /** Where the constructor leaves the iterator: the first passing position at or after cur, or end. */
  function FilteredStart<T>(base: seq<T>, cur: int, end: int, filter: T -> bool): (r: int)
    requires 0 <= cur <= end <= |base|
    ensures cur <= r <= end && (r < end ==> filter(base[r]))
    ensures forall k :: cur <= k < r ==> !filter(base[k])
  {
    if cur == end || filter(base[cur]) then cur else NextMatch(base, end, filter, cur)
  }

  class FilteredIterator<T> {
    const base: seq<T>
    const end: int
    const filter: T -> bool
    var cur: int

    /** At end, or at an element the filter accepts. */
    predicate Valid()
      reads this
    {
      0 <= cur <= end <= |base| && (cur < end ==> filter(base[cur]))
    }

    /** Positioned on the first accepted element at or after cur; an empty range stays at end. */
    constructor (base: seq<T>, cur: int, end: int, filter: T -> bool)
      requires 0 <= cur <= end <= |base|
      ensures this.base == base && this.end == end && this.filter == filter
      ensures Valid() && this.cur == FilteredStart(base, cur, end, filter)
    {
      this.base := base;
      this.end := end;
      this.filter := filter;
      this.cur := cur;
      new;
      if cur != end && !filter(base[cur]) {
        GotoNext();
      }
    }

    predicate Equals(other: FilteredIterator<T>)
      reads this, other
    {
      cur == other.cur
    }

    function Deref(): (r: T)
      reads this
      requires Valid() && cur < end
      ensures r == base[cur] && filter(r)
    {
      base[cur]
    }

    /** Advances at least one position, to the next accepted element or to end. */
    method GotoNext()
      requires 0 <= cur < end <= |base|
      modifies this`cur
      ensures Valid() && cur == NextMatch(base, end, filter, old(cur))
    {
      cur := cur + 1;
      while cur != end && !filter(base[cur])
        invariant old(cur) < cur <= end
        invariant NextMatch(base, end, filter, old(cur)) == (if cur == end || filter(base[cur]) then cur else NextMatch(base, end, filter, cur))
        decreases end - cur
      {
        cur := cur + 1;
      }
    }

    method Next()
      requires Valid() && cur < end
      modifies this`cur
      ensures Valid() && old(cur) < cur && cur == NextMatch(base, end, filter, old(cur))
    {
      GotoNext();
    }
  }

  /**
   * The elements a range-based loop visits from a valid position c: the
   * element at c, then those from the next accepted position.
   */
  function Visited<T>(base: seq<T>, end: int, filter: T -> bool, c: int): (r: seq<T>)
    requires 0 <= c <= end <= |base|
    decreases end - c
  {
    if c == end then [] else [base[c]] + Visited(base, end, filter, NextMatch(base, end, filter, c))
  }

  /**
   * Iterating from the constructor's position visits exactly the elements of
   * base[from..end] the filter accepts, in order.
   */
  lemma {:induction false} VisitedIsFiltered<T>(base: seq<T>, from: int, end: int, filter: T -> bool)
    requires 0 <= from <= end <= |base|
    decreases end - from
    ensures Visited(base, end, filter, FilteredStart(base, from, end, filter)) == Filtered(base, from, end, filter)
  {
    if from < end {
      VisitedIsFiltered(base, from + 1, end, filter);
      if filter(base[from]) {
        assert FilteredStart(base, from + 1, end, filter) == NextMatch(base, end, filter, from);
      } else {
        assert FilteredStart(base, from + 1, end, filter) == FilteredStart(base, from, end, filter);
      }
    }
  }

  // ---------------------------------------------------------------------
  // expand_iterator

  /** Where goto_next stops: base position, last output and expansion state. */
  datatype ExpandState<O> = ExpandState(cur: int, value: O, k: int)

  /**
   * goto_next from state st: calls the expansion on the current base element
   * until it reports an output to show (k != -1), moving to the next base
   * element (with k back at -1) each time it reports the element done.
   */
  function GotoNextExpand<I, O>(base: seq<I>, end: int, expand: (I, int) -> (O, int), st: ExpandState<O>): (r: ExpandState<O>)
    requires 0 <= st.cur <= end <= |base|
    decreases end - st.cur
    ensures st.cur <= r.cur <= end
    ensures r.cur == end || r.k != -1
    ensures st.cur == end ==> r == st
    ensures r.cur == st.cur < end ==> r.k != -1 && (r.value, r.k) == expand(base[st.cur], st.k)
    ensures r.cur > st.cur ==> expand(base[st.cur], st.k).1 == -1
    ensures st.cur < r.cur < end ==> (r.value, r.k) == expand(base[r.cur], -1)
    ensures forall c :: st.cur < c < r.cur ==> expand(base[c], -1).1 == -1
  {
    if st.cur == end then st
    else
      var (v, k) := expand(base[st.cur], st.k);
      if k == -1 then GotoNextExpand(base, end, expand, ExpandState(st.cur + 1, v, -1))
      else ExpandState(st.cur, v, k)
  }

  class ExpandIterator<I, O(0)> {
    const base: seq<I>
    const end: int
    const expand: (I, int) -> (O, int)
    var cur: int
    var curValue: O
    var curK: int

    function State(): ExpandState<O>
      reads this
    {
      ExpandState(cur, curValue, curK)
    }

    /** Starts with state -1 and moves at once to the first output. */
    constructor (base: seq<I>, cur: int, end: int, expand: (I, int) -> (O, int))
      requires 0 <= cur <= end <= |base|
      ensures this.base == base && this.end == end && this.expand == expand
      ensures cur <= this.cur <= end && (this.cur == end || this.curK != -1)
      ensures cur < end ==> State() == GotoNextExpand(base, end, expand, ExpandState(cur, State().value, -1))
      ensures cur == end ==> this.cur == end && curK == -1
    {
      this.base := base;
      this.end := end;
      this.expand := expand;
      this.cur := cur;
      curK := -1;
      new;
      ghost var v0 := curValue;
      GotoNext();
      assert cur < end ==> curValue == GotoNextExpand(base, end, expand, ExpandState(cur, v0, -1)).value;
    }

    predicate Equals(other: ExpandIterator<I, O>)
      reads this, other
    {
      cur == other.cur
    }

    function Deref(): (r: O)
      reads this
      ensures r == curValue
    {
      curValue
    }

    method GotoNext()
      requires 0 <= cur <= end <= |base|
      modifies this`cur, this`curValue, this`curK
      ensures State() == GotoNextExpand(base, end, expand, old(State()))
    {
      while cur != end
        invariant old(cur) <= cur <= end
        invariant GotoNextExpand(base, end, expand, old(State())) == GotoNextExpand(base, end, expand, State())
        decreases end - cur
      {
        var (v, k) := expand(base[cur], curK);
        curValue := v;
        curK := k;
        if curK == -1 {
          cur := cur + 1;
        } else {
          break;
        }
      }
    }

    method Next()
      requires 0 <= cur <= end <= |base|
      modifies this`cur, this`curValue, this`curK
      ensures State() == GotoNextExpand(base, end, expand, old(State()))
    {
      GotoNext();
    }
  }

  class ExpandEnumerable<I, O(0)> {
    const base: seq<I>
    const beginPos: int
    const endPos: int
    const expand: (I, int) -> (O, int)

    constructor (base: seq<I>, beginPos: int, endPos: int, expand: (I, int) -> (O, int))
      requires 0 <= beginPos <= endPos <= |base|
      ensures this.base == base && this.beginPos == beginPos && this.endPos == endPos && this.expand == expand
    {
      this.base := base;
      this.beginPos := beginPos;
      this.endPos := endPos;
      this.expand := expand;
    }

    /** An iterator on the first output of the range. */
    method Begin() returns (it: ExpandIterator<I, O>)
      requires 0 <= beginPos <= endPos <= |base|
      ensures fresh(it) && it.base == base && it.end == endPos && it.expand == expand
      ensures beginPos <= it.cur <= endPos && (it.cur == endPos || it.curK != -1)
      ensures beginPos < endPos ==> it.State() == GotoNextExpand(base, endPos, expand, ExpandState(beginPos, it.State().value, -1))
      ensures beginPos == endPos ==> it.cur == endPos && it.curK == -1
    {
      it := new ExpandIterator(base, beginPos, endPos, expand);
    }

    /** The end iterator: its base position is the end of the range. */
    method End() returns (it: ExpandIterator<I, O>)
      requires 0 <= beginPos <= endPos <= |base|
      ensures fresh(it) && it.base == base && it.cur == endPos && it.end == endPos && it.curK == -1
    {
      it := new ExpandIterator(base, endPos, endPos, expand);
    }
  }

  /** Constructing a filtered iterator on an empty range as written dereferences its end. */
  lemma FilteredEmptyRangeDereferencesEnd(filter: int -> bool)
    ensures FilteredStartAsWritten([1, 2], 2, 2, filter) == Err(DereferencedEnd)
    ensures FilteredStart([1, 2], 2, 2, filter) == 2
  {
  }
}

/**
 * A pool of objects that hands out slots of a growing store and takes them
 * back on a free list. A pointer into the store is modelled as the slot's
 * index; the free list is a stack of such indices.
 */
module ObjectPools {

  class ObjectPool<T> {
    /** The default-constructed object, Type(). */
    const blank: T
    var store: seq<T>
    var free: seq<int>

    /** Every released index names a slot of the store. */
    predicate Valid()
      reads this
    {
      forall i :: 0 <= i < |free| ==> 0 <= free[i] < |store|
    }

    constructor (blank: T)
      ensures this.blank == blank && store == [] && free == [] && Valid()
    {
      this.blank := blank;
      store := [];
      free := [];
    }

    /**
     * With an empty free list, appends a fresh object and returns its slot.
     * Otherwise pops the most recently released slot, resets its object and
     * returns it, leaving the store's size unchanged.
     */
    method Allocate() returns (p: int)
      requires Valid()
      modifies this`store, this`free
      ensures Valid() && 0 <= p < |store| && store[p] == blank
      ensures old(free) == [] ==> store == old(store) + [blank] && p == |old(store)| && free == []
      ensures old(free) != [] ==> (p == old(free)[|old(free)| - 1] && free == old(free)[..|old(free)| - 1]
        && store == old(store)[p := blank])
      ensures |store| == |old(store)| + (if old(free) == [] then 1 else 0)
    {
      if free == [] {
        store := store + [blank];
        p := |store| - 1;
      } else {
        p := free[|free| - 1];
        store := store[p := blank];
        free := free[..|free| - 1];
      }
    }

    /** Pushes p onto the free list; nothing checks that p is not already there. */
    method Release(p: int)
      requires Valid() && 0 <= p < |store|
      modifies this`free
      ensures Valid() && free == old(free) + [p]
    {
      free := free + [p];
    }

    /** Forgets every object and every released slot (the memory is kept). */
    method ResetPool()
      modifies this`store, this`free
      ensures store == [] && free == [] && Valid()
    {
      free := [];
      store := [];
    }

    /** Forgets every object and every released slot, and frees the memory. */
    method FreePool()
      modifies this`store, this`free
      ensures store == [] && free == [] && Valid()
    {
      free := [];
      store := [];
    }
  }

  /** The free list is last in, first out: releasing p then allocating returns p. */
  method ReleaseThenAllocate<T>(pool: ObjectPool<T>, p: int) returns (q: int)
    requires pool.Valid() && 0 <= p < |pool.store|
    modifies pool
    ensures q == p && pool.Valid() && pool.free == old(pool.free) && |pool.store| == |old(pool.store)|
    ensures pool.store == old(pool.store)[p := pool.blank]
  {
    pool.Release(p);
    q := pool.Allocate();
  }

  /**
   * Releasing one slot twice makes the next two allocations return that same
   * slot, so two clients end up sharing one object.
   */
  method DoubleReleaseSharesSlot<T>(pool: ObjectPool<T>, p: int) returns (q1: int, q2: int)
    requires pool.Valid() && 0 <= p < |pool.store|
    modifies pool
    ensures q1 == p && q2 == p
  {
    pool.Release(p);
    pool.Release(p);
    q1 := pool.Allocate();
    q2 := pool.Allocate();
  }
}

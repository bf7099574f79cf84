/** The wake-up list the router waits on (utils.py). */
module WakeUp {
  /** `list.remove`: drop the first occurrence, or nothing. */
  function RemoveFirst<T(==)>(items: seq<T>, x: T): (r: seq<T>)
    ensures |r| == if x in items then |items| - 1 else |items|
  {
    if items == [] then []
    else if items[0] == x then items[1..]
    else [items[0]] + RemoveFirst(items[1..], x)
  }

  /** Exactly one occurrence goes, if there is one. */
  lemma {:induction false} RemoveFirstCounts<T>(items: seq<T>, x: T)
    ensures multiset(RemoveFirst(items, x)) == multiset(items) - multiset{x}
  {
    if items != [] {
      assert items == [items[0]] + items[1..];
      if items[0] != x {
        RemoveFirstCounts(items[1..], x);
        assert multiset(RemoveFirst(items, x)) == multiset{items[0]} + multiset(RemoveFirst(items[1..], x));
      }
    }
  }

  /** An item may be registered more than once; each call of `Unregister` takes back one registration. */
  class MultiDataEvent<T(==)> {
    var items: seq<T>
    var ready: bool

    /** The event is set exactly while something is registered. */
    ghost predicate Valid()
      reads this
    {
      ready <==> items != []
    }

    constructor ()
      ensures Valid() && items == []
    {
      items := [];
      ready := false;
    }

    method CheckReady()
      modifies this`ready
      ensures Valid()
    {
      if items != [] {
        ready := true;
      } else {
        ready := false;
      }
    }

    method Register(item: T)
      requires Valid()
      modifies this
      ensures Valid() && items == old(items) + [item]
    {
      items := items + [item];
      ready := true;
    }

    method Unregister(item: T)
      requires Valid()
      modifies this
      ensures Valid() && items == RemoveFirst(old(items), item)
    {
      items := RemoveFirst(items, item);
      CheckReady();
    }
  }
}

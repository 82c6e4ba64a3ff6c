/** The pool's own operations, run without interruption: what one call does to the deque and the
    permits. Interleaved calls are the subject of module Pool. */
module ItemPools {
  import opened Wrappers

  type Item = nat

  datatype PoolError = PoolClosed | AllocatorError

  function Reversed(s: seq<Item>): seq<Item> {
    if s == [] then [] else [s[|s| - 1]] + Reversed(s[..|s| - 1])
  }

  /** The first item from `i` on that passes the check; the length if there is none. */
  function FirstFit(items: seq<Item>, fit: Item -> bool, i: nat): (n: nat)
    requires i <= |items|
    ensures i <= n <= |items|
    ensures n < |items| ==> fit(items[n])
    ensures forall j | i <= j < n :: !fit(items[j])
    decreases |items| - i
  {
    if i == |items| || fit(items[i]) then i else FirstFit(items, fit, i + 1)
  }

  // ---------- What the operations do ----------

  /** The idle items in their order, the free permits, and whether the pool is closed. */
  datatype Contents = Contents(items: seq<Item>, permits: nat, closed: bool)

  /** `get`: the first item, unchecked, or one that the allocator opens. */
  function GetResult(p: Contents, created: Option<Item>): Result<Item, PoolError> {
    if p.closed then Err(PoolClosed)
    else if p.items != [] then Ok(p.items[0])
    else if created.Some? then Ok(created.value)
    else Err(AllocatorError)
  }

  function AfterGet(p: Contents, created: Option<Item>): Contents
    requires p.closed || p.permits > 0
  {
    if p.closed then p
    else
      Contents(if p.items == [] then [] else p.items[1..],
               if GetResult(p, created).Ok? then p.permits - 1 else p.permits, false)
  }

  /** `get_checked`: the first item that passes the check; every item before it is deallocated. */
  function GetCheckedResult(p: Contents, fit: Item -> bool, created: Option<Item>): Result<Item, PoolError> {
    var n := FirstFit(p.items, fit, 0);
    if p.closed then Err(PoolClosed)
    else if n < |p.items| then Ok(p.items[n])
    else if created.Some? then Ok(created.value)
    else Err(AllocatorError)
  }

  function AfterGetChecked(p: Contents, fit: Item -> bool, created: Option<Item>): Contents
    requires p.closed || p.permits > 0
  {
    var n := FirstFit(p.items, fit, 0);
    if p.closed then p
    else
      Contents(if n < |p.items| then p.items[n + 1..] else [],
               if GetCheckedResult(p, fit, created).Ok? then p.permits - 1 else p.permits, false)
  }

  /** A release: back into the deque, or to the allocator once the pool is closed. */
  function AfterRelease(p: Contents, item: Item): Contents {
    Contents(if p.closed then p.items else p.items + [item], p.permits + 1, p.closed)
  }

  // ---------- The object ----------

  /** `deallocated` records in order what the allocator has been given back. */
  class ItemPool {
    const limit: nat
    var items: seq<Item>
    var permits: nat
    var closed: bool
    var deallocated: seq<Item>

    /** Idle items and permits that are out never exceed the limit together. */
    ghost predicate Valid()
      reads this
    {
      |items| <= permits <= limit
    }

    ghost function View(): Contents
      reads this
    {
      Contents(items, permits, closed)
    }

    constructor (limit: nat)
      ensures Valid() && this.limit == limit && View() == Contents([], limit, false) && deallocated == []
    {
      this.limit := limit;
      items, permits, closed, deallocated := [], limit, false, [];
    }

    method Get(created: Option<Item>) returns (r: Result<Item, PoolError>)
      requires Valid() && (closed || permits > 0)
      modifies this`items, this`permits
      ensures Valid()
      ensures r == GetResult(old(View()), created) && View() == AfterGet(old(View()), created)
    {
      if closed {
        return Err(PoolClosed);
      }
      permits := permits - 1;
      if items != [] {
        r := Ok(items[0]);
        items := items[1..];
      } else if created.Some? {
        r := Ok(created.value);
      } else {
        permits := permits + 1;
        r := Err(AllocatorError);
      }
    }

    method GetChecked(fit: Item -> bool, created: Option<Item>) returns (r: Result<Item, PoolError>)
      requires Valid() && (closed || permits > 0)
      modifies this`items, this`permits, this`deallocated
      ensures Valid()
      ensures r == GetCheckedResult(old(View()), fit, created)
      ensures View() == AfterGetChecked(old(View()), fit, created)
      ensures deallocated
              == old(deallocated) + if closed then [] else old(items)[..FirstFit(old(items), fit, 0)]
    {
      if closed {
        return Err(PoolClosed);
      }
      permits := permits - 1;
      ghost var k := 0;
      while items != []
        invariant k <= |old(items)| && items == old(items)[k..] && !closed
        invariant deallocated == old(deallocated) + old(items)[..k]
        invariant FirstFit(old(items), fit, 0) == FirstFit(old(items), fit, k)
        invariant permits == old(permits) - 1
      {
        var item := items[0];
        items := items[1..];
        if fit(item) {
          return Ok(item);
        }
        deallocated := deallocated + [item];
        k := k + 1;
      }
      if created.Some? {
        r := Ok(created.value);
      } else {
        permits := permits + 1;
        r := Err(AllocatorError);
      }
    }

    method Release(item: Item)
      requires Valid() && permits < limit
      modifies this`items, this`permits, this`deallocated
      ensures Valid() && View() == AfterRelease(old(View()), item)
      ensures deallocated == if closed then old(deallocated) + [item] else old(deallocated)
    {
      if closed {
        deallocated := deallocated + [item];
      } else {
        items := items + [item];
      }
      permits := permits + 1;
    }

    /** Every idle item is deallocated, the most recently released first. */
    method Clear()
      requires Valid()
      modifies this`items, this`deallocated
      ensures Valid() && View() == old(View()).(items := [])
      ensures deallocated == old(deallocated) + Reversed(old(items))
    {
      while items != []
        invariant |items| <= |old(items)|
        invariant deallocated + Reversed(items) == old(deallocated) + Reversed(old(items))
      {
        var last := |items| - 1;
        assert Reversed(items) == [items[last]] + Reversed(items[..last]);
        deallocated := deallocated + [items[last]];
        items := items[..last];
      }
    }

    method Close()
      requires Valid()
      modifies this`items, this`closed, this`deallocated
      ensures Valid() && View() == old(View()).(items := [], closed := true)
      ensures deallocated == old(deallocated) + Reversed(old(items))
    {
      closed := true;
      Clear();
    }
  }

  /** A clear deallocates each idle item once. */
  lemma {:induction false} ReversedIsPermutation(s: seq<Item>)
    ensures multiset(Reversed(s)) == multiset(s)
  {
    if s != [] {
      ReversedIsPermutation(s[..|s| - 1]);
      assert s == s[..|s| - 1] + [s[|s| - 1]];
    }
  }
}

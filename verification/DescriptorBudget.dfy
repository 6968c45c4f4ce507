/** The sizing of the descriptor pool that covers and backgrounds draw on together, and the counter that
    refuses a set before the driver is asked for one. */
module DescriptorBudget {

  const RESERVED_SETS: nat := 1      // the font atlas
  const BACKGROUND_SETS: nat := 8    // the background layer's allowance
  const MIN_POOL_SETS: nat := 32
  const MAX_POOL_SETS: nat := 8192
  const SIZE_MAX: nat := 0xFFFF_FFFF_FFFF_FFFF

  /** Saturating, then clamped. Exact for every library that fits below the ceiling. */
  function PoolSets(titles: nat): (sets: nat)
    requires titles <= SIZE_MAX
    ensures MIN_POOL_SETS <= sets <= MAX_POOL_SETS
    ensures sets < titles + BACKGROUND_SETS + RESERVED_SETS ==> sets == MAX_POOL_SETS
  {
    var overhead := BACKGROUND_SETS + RESERVED_SETS;
    var want := if titles > SIZE_MAX - overhead then SIZE_MAX else titles + overhead;
    var floored := if want < MIN_POOL_SETS then MIN_POOL_SETS else want;
    if floored > MAX_POOL_SETS then MAX_POOL_SETS else floored
  }

  /** What the library itself may allocate of a pool. */
  function TextureBudget(poolSets: nat): nat {
    if poolSets > RESERVED_SETS then poolSets - RESERVED_SETS else 0
  }

  /** The smallest size within the limits that holds a set for every title, eight for the backgrounds and
      the font atlas; and the budget is all of the pool but the font atlas. */
  lemma PoolIsLeast(titles: nat, sets: nat)
    requires titles + 9 <= 8192 && 32 <= sets && titles + 9 <= sets
    ensures titles + 9 <= PoolSets(titles) <= sets && PoolSets(titles) >= 32
    ensures TextureBudget(PoolSets(titles)) + 1 == PoolSets(titles)
  {
  }

  lemma PoolHasCeiling(titles: nat)
    requires 8192 < titles + 9 && titles <= SIZE_MAX
    ensures PoolSets(titles) == 8192
  {
  }

  datatype Count = Count(capacity: nat, used: nat) {
    predicate HasRoom() { used < capacity }

    function Taken(): Count { this.(used := used + 1) }

    /** `n` releases, each clamped at zero. */
    function Released(n: nat): Count {
      this.(used := if used > n then used - n else 0)
    }
  }

  /** The counter both layers share by reference. */
  class Budget {
    var capacity: nat
    var used: nat

    constructor ()
      ensures View() == Count(0, 0)
    {
      capacity, used := 0, 0;
    }

    function View(): Count
      reads this
    {
      Count(capacity, used)
    }

    method Reset(newCapacity: nat)
      modifies this
      ensures View() == Count(newCapacity, 0)
    {
      capacity, used := newCapacity, 0;
    }

    method Acquire() returns (ok: bool)
      modifies this
      ensures ok == old(View()).HasRoom()
      ensures View() == if ok then old(View()).Taken() else old(View())
    {
      if used >= capacity {
        return false;
      }
      used := used + 1;
      return true;
    }

    method Release()
      modifies this
      ensures View() == old(View()).Released(1)
    {
      if used > 0 {
        used := used - 1;
      }
    }

    /** `acquire_texture_set`: `added` is whether the allocator, which is only reached when there is
        room, returned a set. A slot whose allocation failed goes straight back. */
    method AcquireTextureSet(added: bool) returns (got: bool)
      modifies this
      ensures got == (old(View()).HasRoom() && added)
      ensures View() == if got then old(View()).Taken() else old(View())
    {
      got := Acquire();
      if got && !added {
        Release();
        got := false;
      }
    }
  }
}

/// The small heap: first-fit allocation from both ends of one pool, with freed
/// blocks merged at once with their neighbours.
module SmallHeap {
  import opened HeapModel

  class SmallHeap {
    const pool: nat
    const length: nat
    var totalFree: nat
    var memory: Memory
    var high: set<nat>

    /** The live blocks that were allocated from the top. */
    ghost var highLive: set<nat>

    ghost predicate Valid()
      reads this
    {
      && Sound(pool, length, memory)
      && totalFree == FreeBytes(memory, pool, pool + length)
      && highLive <= Live(memory).Keys
      && high == highLive + {GUARD}
    }

    constructor (base: nat, length: nat)
      requires 0 < base && 0 < length && base + length < GUARD
      ensures Valid() && pool == base && this.length == length
      ensures Live(memory) == map[] && totalFree == length && highLive == {}
    {
      pool, this.length := base, length;
      totalFree := length;
      var start := Node(0, At(base), End);
      var node := Node(length, At(GUARD), At(0));
      var end := Node(0, End, start.next);
      memory := map[0 := start, base := node, GUARD := end];
      high, highLive := {GUARD}, {};
      new;
      FreshSound(base, length);
      assert memory == Fresh(base, length);
    }

    method InsertAfter(place: nat, node: nat)
      requires place in memory && node in memory && place < node && IsFree(memory[place])
      requires memory[place].next.At? && memory[place].next.addr in memory
      modifies this`memory
      ensures memory == Inserted(old(memory), place, node, old(memory[place].next.addr))
    {
      var next := memory[place].next;
      memory := memory[node := memory[node].(next := next)];
      memory := memory[node := memory[node].(prior := At(place))];
      memory := memory[place := memory[place].(next := At(node))];
      memory := memory[next.addr := memory[next.addr].(prior := At(node))];
    }

    method Remove(node: nat)
      requires node in memory && IsFree(memory[node])
      requires memory[node].next.At? && memory[node].next.addr in memory
      requires memory[node].prior.At? && memory[node].prior.addr in memory && memory[node].prior.addr != node
      modifies this`memory
      ensures memory == Removed(old(memory), node, old(memory[node].prior.addr), old(memory[node].next.addr))
    {
      var prior := memory[node].prior.addr;
      memory := memory[prior := memory[prior].(next := memory[node].next)];
      var next := memory[node].next.addr;
      memory := memory[next := memory[next].(prior := memory[node].prior)];
      memory := memory[node := memory[node].(next := At(0))];
    }

    /** Returns `high` if the blocks do not touch, and the merged block otherwise. */
    method Merge(low: nat, high: nat) returns (r: nat)
      requires low in memory && high in memory && IsFree(memory[low]) && IsFree(memory[high])
      requires low + memory[low].len == high ==>
                 memory[high].next.At? && memory[high].next.addr in memory && memory[high].next.addr != high
      modifies this`memory
      ensures if low + old(memory[low].len) == high
              then r == low && memory == Merged(old(memory), low, high, old(memory[high].next.addr))
              else r == high && memory == old(memory)
    {
      if low + memory[low].len != high {
        return high;
      }
      memory := memory[low := memory[low].(len := memory[low].len + memory[high].len)];
      memory := memory[low := memory[low].(next := memory[high].next)];
      var next := memory[high].next.addr;
      memory := memory[next := memory[next].(prior := At(low))];
      memory := memory - {high};
      return low;
    }

    /** The node before `a` in address order. */
    method Before(a: nat) returns (p: nat)
      requires 0 in memory && 0 < a
      ensures p in memory && p < a && NoneBetween(memory, p, a)
    {
      ghost var below := set x: nat | x in memory && x < a;
      assert 0 in below;
      ghost var q := Highest(below);
      assert q in memory && q < a && forall x :: x in memory && x < a ==> x <= q by {
        assert forall x :: x in memory && x < a ==> x in below;
      }
      p :| p in memory && p < a && forall x :: x in memory && x < a ==> x <= p;
    }

    /** Frees a block: it is live no more, and everything else is. */
    method Free(ptr: nat)
      requires Valid() && (ptr != 0 && ptr in memory ==> UsedBlock(memory, ptr))
      modifies this
      ensures Valid()
      ensures Live(memory) == old(Live(memory)) - {ptr}
      ensures ptr in old(Live(memory)) ==> totalFree == old(totalFree) + old(Live(memory))[ptr]
      ensures ptr !in old(Live(memory)) ==> memory == old(memory) && totalFree == old(totalFree)
      ensures highLive == old(highLive) - {ptr}
    {
      if ptr == 0 || ptr !in memory {
        return;
      }
      hide Tiled, Linked, Coalesced, TouchOnly;
      totalFree := totalFree + memory[ptr].len;
      var before;
      ghost var next;
      before, next := FreeBefore(ptr);
      InsertedSound(pool, length, memory, before, ptr, next);
      InsertAfter(before, ptr);
      var node := MergeNext(before, ptr, next);
      node := MergeNext(node, memory[node].next.addr, 0);
      NoTouch(memory, node);
      high := high - {ptr};
      highLive := highLive - {ptr};
    }

    /** Walks down from a used block to the last free node before it. */
    method FreeBefore(ptr: nat) returns (before: nat, ghost next: nat)
      requires Listed(pool, length, memory) && UsedBlock(memory, ptr)
      ensures IsFreeAt(memory, before) && before < ptr < next
      ensures memory[before].next == At(next) && IsFreeAt(memory, next)
    {
      before := Before(ptr);
      while !IsFree(memory[before])
        invariant before in memory && before < ptr && NoFreeBetween(memory, before, ptr)
        decreases before
      {
        before := Before(before);
      }
      assert Tile(pool, length, memory, ptr);
      next := NextFree(pool, length, memory, before);
      assert IsFreeAt(memory, next);
    }

    /** Merges two nodes that follow each other in the free list, if they touch; what is left of
        touching free blocks is the result with `next`. */
    method MergeNext(low: nat, highNode: nat, ghost next: nat) returns (r: nat)
      requires Listed(pool, length, memory) && IsFreeAt(memory, low) && IsFreeAt(memory, highNode)
      requires low < highNode && memory[low].next == At(highNode)
      requires TouchOnly(memory, low, highNode, next)
      modifies this`memory
      ensures Listed(pool, length, memory) && Live(memory) == old(Live(memory))
      ensures FreeBytes(memory, pool, pool + length) == old(FreeBytes(memory, pool, pool + length))
      ensures IsFreeAt(memory, r) && TouchOnly(memory, r, next, 0)
      ensures memory[r].next == old(memory[highNode].next)
      ensures old(memory[highNode].next.At?) ==>
                r < old(memory[highNode].next.addr) && IsFreeAt(memory, old(memory[highNode].next.addr))
    {
      assert Tile(pool, length, memory, low) && Link(memory, highNode);
      if low + memory[low].len == highNode {
        ghost var after := NextFree(pool, length, memory, highNode);
        MergedListed(pool, length, memory, low, highNode, after);
        MergedAccount(pool, length, memory, low, highNode, after);
        MergedTouch(pool, length, memory, low, highNode, after, next);
      } else {
        assert !Touch(memory, low, highNode);
      }
      r := Merge(low, highNode);
    }

    /** Walks the free list up to the first block that is large enough, or to its end. */
    method FirstFit(bytes: nat) returns (current: nat)
      requires Listed(pool, length, memory) && 0 < bytes
      ensures IsFreeAt(memory, current) && current != 0
      ensures current != GUARD ==> Fits(memory, current, bytes)
      ensures forall a: nat :: a < current ==> !Fits(memory, a, bytes)
    {
      ghost var first := NextFree(pool, length, memory, 0);
      NoFitBetween(memory, 0, first, bytes);
      assert Tile(pool, length, memory, first);
      current := memory[0].next.addr;
      while memory[current].next != End
        invariant IsFreeAt(memory, current) && 0 < current <= GUARD
        invariant forall a: nat :: a < current ==> !Fits(memory, a, bytes)
        decreases GUARD - current
      {
        if bytes <= memory[current].len {
          return;
        }
        ghost var next := NextFree(pool, length, memory, current);
        NoFitBetween(memory, current, next, bytes);
        assert Tile(pool, length, memory, next);
        current := memory[current].next.addr;
      }
      assert Link(memory, current);
    }

    /** Walks the free list down to the first block that is large enough, or to its start. */
    method LastFit(bytes: nat) returns (current: nat)
      requires Listed(pool, length, memory) && 0 < bytes
      ensures IsFreeAt(memory, current) && current != GUARD
      ensures current != 0 ==> Fits(memory, current, bytes)
      ensures forall a: nat :: a > current ==> !Fits(memory, a, bytes)
    {
      ghost var last := PriorFree(pool, length, memory, GUARD);
      NoFitAbove(pool, length, memory, bytes);
      NoFitBetween(memory, last, GUARD, bytes);
      current := memory[GUARD].prior.addr;
      while memory[current].prior != End
        invariant IsFreeAt(memory, current) && current < GUARD
        invariant forall a: nat :: a > current ==> !Fits(memory, a, bytes)
        decreases current
      {
        if bytes <= memory[current].len {
          return;
        }
        ghost var prior := PriorFree(pool, length, memory, current);
        NoFitBetween(memory, prior, current, bytes);
        current := memory[current].prior.addr;
      }
      if current != 0 {
        ghost var prior := PriorFree(pool, length, memory, current);
      }
    }

    /** Allocates the lower end of the lowest free block that is large enough. */
    method Alloc(bytes: nat) returns (p: nat)
      requires Valid()
      modifies this
      ensures Valid() && high == old(high) && highLive == old(highLive)
      ensures p == 0 <==> bytes == 0 || forall a: nat :: !Fits(old(memory), a, bytes)
      ensures p == 0 ==> memory == old(memory) && totalFree == old(totalFree)
      ensures p != 0 ==>
                && Fits(old(memory), p, bytes) && (forall a: nat :: a < p ==> !Fits(old(memory), a, bytes))
                && Live(memory) == old(Live(memory))[p := bytes]
                && totalFree == old(totalFree) - bytes
    {
      if bytes > totalFree || bytes == 0 {
        if bytes > totalFree {
          NothingFits(pool, length, memory, bytes);
        }
        return 0;
      }
      var current := FirstFit(bytes);
      if memory[current].next == End {
        assert Link(memory, current);
        NoFitAbove(pool, length, memory, bytes);
        return 0;
      }
      TakeLowEnd(current, bytes);
      return current;
    }

    method TakeLowEnd(current: nat, bytes: nat)
      requires Valid() && 0 < bytes && Fits(memory, current, bytes)
      modifies this
      ensures Valid() && high == old(high) && highLive == old(highLive)
      ensures Live(memory) == old(Live(memory))[current := bytes] && totalFree == old(totalFree) - bytes
    {
      FreeBytesAtLeast(pool, length, memory, current);
      hide Sound, FreeBytes, Live, Fits;
      totalFree := totalFree - bytes;
      TakeLower(current, bytes);
    }

    /** Cuts the lower part off a free block, or takes the whole of it. */
    method TakeLower(current: nat, bytes: nat)
      requires Sound(pool, length, memory) && 0 < bytes && Fits(memory, current, bytes)
      modifies this`memory
      ensures Sound(pool, length, memory) && Live(memory) == old(Live(memory))[current := bytes]
      ensures FreeBytes(memory, pool, pool + length) == FreeBytes(old(memory), pool, pool + length) - bytes
    {
      if bytes == memory[current].len {
        TakeBlock(current);
        return;
      }
      ghost var prior := PriorFree(pool, length, memory, current);
      ghost var next := NextFree(pool, length, memory, current);
      hide Sound, FreeBytes, Live, SplitLow, Removed;
      TakeLow(pool, length, memory, current, bytes, prior, next);
      Cut(current, current + bytes, bytes);
      Remove(current);
    }

    method TakeBlock(current: nat)
      requires Sound(pool, length, memory) && FreeBlock(memory, current)
      modifies this`memory
      ensures Sound(pool, length, memory) && Live(memory) == old(Live(memory))[current := old(memory[current].len)]
      ensures FreeBytes(memory, pool, pool + length)
           == FreeBytes(old(memory), pool, pool + length) - old(memory[current].len)
    {
      ghost var prior := PriorFree(pool, length, memory, current);
      ghost var next := NextFree(pool, length, memory, current);
      hide Sound, FreeBytes, Live, Removed;
      TakeWhole(pool, length, memory, current, prior, next);
      Remove(current);
    }

    /** Cuts off what an allocation of `bytes` leaves of a free block, and lists it. */
    method Cut(current: nat, remaining: nat, bytes: nat)
      requires current in memory && IsFree(memory[current]) && 0 < bytes < memory[current].len
      requires remaining == current + bytes && memory[current].next.At?
      requires memory[current].next.addr in memory && memory[current].next.addr != remaining
      modifies this`memory
      ensures memory == Inserted(SplitLow(old(memory), current, bytes), current, remaining,
                                 old(memory[current].next.addr))
    {
      memory := memory[remaining := Node(memory[current].len - bytes, At(0), End)];
      memory := memory[current := memory[current].(len := bytes)];
      InsertAfter(current, remaining);
    }

    /** Allocates the upper end of the highest free block that is large enough. */
    method AllocHigh(bytes: nat) returns (p: nat)
      requires Valid()
      modifies this
      ensures Valid()
      ensures p == 0 <==> bytes == 0 || forall a: nat :: !Fits(old(memory), a, bytes)
      ensures p == 0 ==> memory == old(memory) && totalFree == old(totalFree) && highLive == old(highLive)
      ensures p != 0 ==>
                && (exists f: nat :: Fits(old(memory), f, bytes) && p + bytes == f + old(memory)[f].len
                      && forall a: nat :: a > f ==> !Fits(old(memory), a, bytes))
                && Live(memory) == old(Live(memory))[p := bytes] && p !in old(Live(memory))
                && totalFree == old(totalFree) - bytes && highLive == old(highLive) + {p}
    {
      if bytes > totalFree || bytes == 0 {
        if bytes > totalFree {
          NothingFits(pool, length, memory, bytes);
        }
        return 0;
      }
      var current := LastFit(bytes);
      if memory[current].prior == End {
        NoFitBelow(pool, length, memory, current, bytes);
        return 0;
      }
      assert current != 0;
      assert Tile(pool, length, memory, current);
      p := TakeHighEnd(current, bytes);
      assert Fits(old(memory), current, bytes);
    }

    method TakeHighEnd(current: nat, bytes: nat) returns (p: nat)
      requires Valid() && 0 < bytes && Fits(memory, current, bytes)
      modifies this
      ensures Valid() && p + bytes == current + old(memory)[current].len && p !in old(Live(memory))
      ensures Live(memory) == old(Live(memory))[p := bytes] && totalFree == old(totalFree) - bytes
      ensures highLive == old(highLive) + {p}
    {
      FreeBytesAtLeast(pool, length, memory, current);
      hide Sound, FreeBytes, Live, Fits;
      totalFree := totalFree - bytes;
      p := TakeUpper(current, bytes);
      high := high + {p};
      highLive := highLive + {p};
    }

    /** Cuts the upper part off a free block, or takes the whole of it. */
    method TakeUpper(current: nat, bytes: nat) returns (p: nat)
      requires Sound(pool, length, memory) && 0 < bytes && Fits(memory, current, bytes)
      modifies this`memory
      ensures Sound(pool, length, memory) && Live(memory) == old(Live(memory))[p := bytes]
      ensures FreeBytes(memory, pool, pool + length) == FreeBytes(old(memory), pool, pool + length) - bytes
      ensures p + bytes == current + old(memory)[current].len && p !in old(Live(memory))
    {
      if bytes != memory[current].len {
        TakeHigh(pool, length, memory, current, bytes);
        p := CutHigh(current, bytes);
      } else {
        p := current;
        TakeBlock(current);
      }
    }

    method CutHigh(current: nat, bytes: nat) returns (p: nat)
      requires current in memory && 0 < bytes < memory[current].len
      modifies this`memory
      ensures p + bytes == current + old(memory)[current].len && memory == SplitHigh(old(memory), current, bytes)
    {
      p := current + memory[current].len - bytes;
      memory := memory[current := memory[current].(len := memory[current].len - bytes)];
      memory := memory[p := Node(bytes, At(0), End)];
    }

    /** The lowest live block allocated from the top, or the upper guard if there is none. */
    method HighSplit() returns (r: nat)
      requires Valid()
      ensures r == GUARD || r in highLive
      ensures forall h :: h in highLive ==> r <= h
    {
      ghost var lowest := Lowest(high);
      r :| r in high && forall h :: h in high ==> r <= h;
    }
  }

  // ---------------------------------------------------- what the caller sees

  /** An allocation that is freed at once leaves the heap as it was: the same live blocks, the same
      free list, down to the links, and the same free bytes. `taken` is the map in between. */
  method AllocThenFree(h: SmallHeap, bytes: nat) returns (p: nat, ghost taken: Memory)
    requires h.Valid()
    modifies h
    ensures p == 0 <==> bytes == 0 || forall a: nat :: !Fits(old(h.memory), a, bytes)
    ensures p != 0 ==>
      Sound(h.pool, h.length, taken) && p !in old(Live(h.memory)) && Live(taken) == old(Live(h.memory))[p := bytes]
    ensures h.Valid() && Live(h.memory) == old(Live(h.memory))
    ensures FreeList(h.memory) == old(FreeList(h.memory)) && h.totalFree == old(h.totalFree)
  {
    p := h.Alloc(bytes);
    taken := h.memory;
    if p != 0 {
      assert p !in old(Live(h.memory));
      LiveIsUsed(h.pool, h.length, h.memory, p);
      h.Free(p);
      assert Live(h.memory) == old(Live(h.memory));
      Canonical(h.pool, h.length, h.memory, old(h.memory));
    }
  }

  method AllocHighThenFree(h: SmallHeap, bytes: nat) returns (p: nat, ghost taken: Memory)
    requires h.Valid()
    modifies h
    ensures p == 0 <==> bytes == 0 || forall a: nat :: !Fits(old(h.memory), a, bytes)
    ensures p != 0 ==>
      Sound(h.pool, h.length, taken) && p !in old(Live(h.memory)) && Live(taken) == old(Live(h.memory))[p := bytes]
    ensures h.Valid() && Live(h.memory) == old(Live(h.memory))
    ensures FreeList(h.memory) == old(FreeList(h.memory)) && h.totalFree == old(h.totalFree)
    ensures h.highLive == old(h.highLive)
  {
    p := h.AllocHigh(bytes);
    taken := h.memory;
    if p != 0 {
      LiveIsUsed(h.pool, h.length, h.memory, p);
      h.Free(p);
      assert Live(h.memory) == old(Live(h.memory));
      Canonical(h.pool, h.length, h.memory, old(h.memory));
    }
  }

  method FreeEach(h: SmallHeap, ptrs: seq<nat>)
    requires h.Valid()
    requires forall i :: 0 <= i < |ptrs| ==> ptrs[i] in Live(h.memory)
    requires forall i, j :: 0 <= i < j < |ptrs| ==> ptrs[i] != ptrs[j]
    modifies h
    ensures h.Valid() && Live(h.memory) == old(Live(h.memory)) - (set p | p in ptrs)
    ensures h.highLive == old(h.highLive) - (set p | p in ptrs)
  {
    for i := 0 to |ptrs|
      invariant h.Valid() && Live(h.memory) == old(Live(h.memory)) - (set p | p in ptrs[..i])
      invariant h.highLive == old(h.highLive) - (set p | p in ptrs[..i])
    {
      assert ptrs[i] in Live(h.memory) by {
        assert ptrs[i] !in ptrs[..i];
      }
      LiveIsUsed(h.pool, h.length, h.memory, ptrs[i]);
      h.Free(ptrs[i]);
      assert ptrs[..i + 1] == ptrs[..i] + [ptrs[i]];
    }
    assert ptrs[..|ptrs|] == ptrs;
  }

  /** Freeing the same blocks in two different orders leaves two equal heaps equal. */
  method FreeInAnyOrder(h1: SmallHeap, h2: SmallHeap, ptrs1: seq<nat>, ptrs2: seq<nat>)
    requires h1 != h2 && h1.Valid() && h2.Valid() && h1.pool == h2.pool && h1.length == h2.length
    requires Live(h1.memory) == Live(h2.memory) && h1.highLive == h2.highLive
    requires forall i :: 0 <= i < |ptrs1| ==> ptrs1[i] in Live(h1.memory)
    requires forall i, j :: 0 <= i < j < |ptrs1| ==> ptrs1[i] != ptrs1[j]
    requires forall i, j :: 0 <= i < j < |ptrs2| ==> ptrs2[i] != ptrs2[j]
    requires forall p :: p in ptrs1 <==> p in ptrs2
    modifies h1, h2
    ensures h1.Valid() && h2.Valid() && Live(h1.memory) == Live(h2.memory)
    ensures Live(h1.memory) == old(Live(h1.memory)) - (set p | p in ptrs1)
    ensures FreeList(h1.memory) == FreeList(h2.memory) && h1.totalFree == h2.totalFree
    ensures h1.highLive == h2.highLive && h1.high == h2.high
  {
    assert forall i :: 0 <= i < |ptrs2| ==> ptrs2[i] in ptrs1;
    FreeEach(h1, ptrs1);
    FreeEach(h2, ptrs2);
    assert (set p | p in ptrs1) == (set p | p in ptrs2);
    Canonical(h1.pool, h1.length, h1.memory, h2.memory);
  }

  /** Freeing every live block gives back the heap as it was constructed. */
  method FreeAll(h: SmallHeap, ptrs: seq<nat>)
    requires h.Valid()
    requires forall i, j :: 0 <= i < j < |ptrs| ==> ptrs[i] != ptrs[j]
    requires forall p :: p in ptrs <==> p in Live(h.memory)
    modifies h
    ensures h.Valid() && h.memory == Fresh(h.pool, h.length) && h.totalFree == h.length
  {
    FreeEach(h, ptrs);
    assert Live(h.memory) == map[];
    AllFreed(h.pool, h.length, h.memory);
    FreshSound(h.pool, h.length);
  }
}

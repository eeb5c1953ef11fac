/// The memory map of the small heap: blocks by address, with the free list
/// threaded through them between two guard nodes.
module HeapModel {

  /** An iterator into the memory map: the address of a node, or past the end. */
  datatype It = At(addr: nat) | End

  datatype Node = Node(len: nat, next: It, prior: It)

  type Memory = map<nat, Node>

  /** The address of the upper guard node; the lower one is at 0. */
  const GUARD := 0xFFFF_FFFF_FFFF_FFFF

  /** A used node is marked by a `next` that points to the first node of the map, at address 0. */
  predicate IsFree(n: Node) {
    n.next != At(0)
  }

  ghost predicate IsBlock(m: Memory, a: nat) {
    a in m && a != 0 && a != GUARD
  }

  ghost predicate IsFreeAt(m: Memory, a: nat) {
    a in m && IsFree(m[a])
  }

  ghost predicate FreeBlock(m: Memory, a: nat) {
    IsBlock(m, a) && IsFree(m[a])
  }

  ghost predicate UsedBlock(m: Memory, a: nat) {
    IsBlock(m, a) && !IsFree(m[a])
  }

  /** No node of the map lies strictly between `a` and `b`. */
  ghost predicate NoneBetween(m: Memory, a: nat, b: nat) {
    forall x: nat :: x in m ==> !(a < x < b)
  }

  ghost predicate NoFreeBetween(m: Memory, a: nat, b: nat) {
    forall x: nat :: IsFreeAt(m, x) ==> !(a < x < b)
  }

  /** A block lies within the pool, ends where another block or the pool does, and covers none. */
  ghost predicate Tile(pool: nat, length: nat, m: Memory, a: nat) {
    IsBlock(m, a) ==>
      && pool <= a < a + m[a].len <= pool + length
      && (a + m[a].len == pool + length || a + m[a].len in m)
      && NoneBetween(m, a, a + m[a].len)
  }

  /** The blocks tile `[pool, pool + length)` without gap or overlap, between two empty guards. */
  ghost predicate Tiled(pool: nat, length: nat, m: Memory) {
    && 0 < pool && 0 < length && pool + length < GUARD
    && 0 in m && GUARD in m && pool in m
    && m[0].len == 0 && m[GUARD].len == 0
    && (forall a: nat {:trigger Tile(pool, length, m, a)} :: Tile(pool, length, m, a))
  }

  /** A free node, except the last, points to the next higher free node, which points back. */
  ghost predicate Link(m: Memory, a: nat) {
    IsFreeAt(m, a) && a != GUARD ==>
      && m[a].next.At? && a < m[a].next.addr
      && IsFreeAt(m, m[a].next.addr)
      && m[m[a].next.addr].prior == At(a)
      && NoFreeBetween(m, a, m[a].next.addr)
  }

  /** The free nodes, guards included, form a list in address order, linked both ways. */
  ghost predicate Linked(m: Memory) {
    && 0 in m && GUARD in m
    && IsFree(m[0]) && m[0].prior == End && m[GUARD].next == End
    && (forall a: nat {:trigger Link(m, a)} :: Link(m, a))
  }

  /** No two neighbouring blocks are both free. */
  ghost predicate Coalesced(m: Memory) {
    forall a: nat, b: nat :: FreeBlock(m, a) && FreeBlock(m, b) ==> a + m[a].len != b
  }

  /** The free bytes of the blocks met walking from `a` up to `end`. */
  ghost function FreeBytes(m: Memory, a: nat, end: nat): nat
    decreases end - a
  {
    if a >= end || a !in m || m[a].len == 0 then 0
    else (if IsFree(m[a]) then m[a].len else 0) + FreeBytes(m, a + m[a].len, end)
  }

  /** The live blocks: address and size. */
  ghost function Live(m: Memory): map<nat, nat> {
    map a | a in m && !IsFree(m[a]) :: m[a].len
  }

  /** The free list: every free node, with its size and links. */
  ghost function FreeList(m: Memory): Memory {
    map a | a in m && IsFree(m[a]) :: m[a]
  }

  /** Everything the heap keeps true of its map. */
  ghost predicate Sound(pool: nat, length: nat, m: Memory) {
    Tiled(pool, length, m) && Linked(m) && Coalesced(m)
  }

  // ------------------------------------------------------------ free bytes

  /** An address where a block starts, or where the last one ends. */
  ghost predicate Boundary(pool: nat, length: nat, m: Memory, b: nat) {
    b == pool + length || IsBlock(m, b)
  }

  lemma {:induction false} FreeBytesSplit(pool: nat, length: nat, m: Memory, a: nat, b: nat)
    requires Tiled(pool, length, m)
    requires Boundary(pool, length, m, a) && Boundary(pool, length, m, b) && a <= b
    ensures FreeBytes(m, a, pool + length) == FreeBytes(m, a, b) + FreeBytes(m, b, pool + length)
    decreases pool + length - a
  {
    if a < b {
      assert Tile(pool, length, m, a) && Tile(pool, length, m, b);
      FreeBytesSplit(pool, length, m, a + m[a].len, b);
    }
  }

  /** Maps that agree on the blocks of `[a, b)` have the same free bytes there. */
  lemma {:induction false} FreeBytesFrame(m: Memory, m': Memory, a: nat, b: nat)
    requires forall x :: a <= x < b ==> (x in m <==> x in m')
    requires forall x :: a <= x < b && x in m ==> m[x].len == m'[x].len && (IsFree(m[x]) <==> IsFree(m'[x]))
    ensures FreeBytes(m, a, b) == FreeBytes(m', a, b)
    decreases b - a
  {
    if a < b && a in m && m[a].len > 0 {
      FreeBytesFrame(m, m', a + m[a].len, b);
    }
  }

  /** Every free block counts. */
  lemma FreeBytesAtLeast(pool: nat, length: nat, m: Memory, a: nat)
    requires Tiled(pool, length, m) && FreeBlock(m, a)
    ensures m[a].len <= FreeBytes(m, pool, pool + length)
  {
    assert Tile(pool, length, m, a);
    FreeBytesSplit(pool, length, m, pool, a);
  }

  /** A change confined to `[x, y)`, both boundaries before and after, changes the free bytes by
      what it changes there. */
  lemma FreeBytesLocal(pool: nat, length: nat, m: Memory, m': Memory, x: nat, y: nat)
    requires Tiled(pool, length, m) && Tiled(pool, length, m') && x <= y
    requires Boundary(pool, length, m, x) && Boundary(pool, length, m', x)
    requires Boundary(pool, length, m, y) && Boundary(pool, length, m', y)
    requires forall z :: !(x <= z < y) ==> (z in m <==> z in m')
    requires forall z :: !(x <= z < y) && z in m ==> m[z].len == m'[z].len && (IsFree(m[z]) <==> IsFree(m'[z]))
    ensures FreeBytes(m', pool, pool + length) - FreeBytes(m, pool, pool + length)
            == FreeBytes(m', x, y) - FreeBytes(m, x, y)
  {
    assert Tile(pool, length, m, x) && Tile(pool, length, m, y);
    FreeBytesSplit(pool, length, m, pool, x);
    FreeBytesSplit(pool, length, m', pool, x);
    FreeBytesSplit(pool, length, m, x, y);
    FreeBytesSplit(pool, length, m', x, y);
    FreeBytesFrame(m, m', pool, x);
    FreeBytesFrame(m, m', y, pool + length);
  }

  // ------------------------------------------------------------- operations

  /** Links `node` into the free list between `place` and `next`. */
  function Inserted(m: Memory, place: nat, node: nat, next: nat): Memory
    requires {place, node, next} <= m.Keys
  {
    var m1 := m[node := m[node].(next := At(next), prior := At(place))];
    var m2 := m1[place := m1[place].(next := At(node))];
    m2[next := m2[next].(prior := At(node))]
  }

  /** Unlinks `node` from between `prior` and `next`, and marks it used. */
  function Removed(m: Memory, node: nat, prior: nat, next: nat): Memory
    requires {node, prior, next} <= m.Keys
  {
    var m1 := m[prior := m[prior].(next := At(next))];
    var m2 := m1[next := m1[next].(prior := At(prior))];
    m2[node := m2[node].(next := At(0))]
  }

  /** Merges the free block `high`, linked before `next`, into the free block `low` that it follows. */
  function Merged(m: Memory, low: nat, high: nat, next: nat): Memory
    requires {low, high, next} <= m.Keys
  {
    var m1 := m[low := m[low].(len := m[low].len + m[high].len, next := At(next))];
    var m2 := m1[next := m1[next].(prior := At(low))];
    m2 - {high}
  }

  /** The map is right but for neighbours that may both be free. */
  ghost predicate Listed(pool: nat, length: nat, m: Memory) {
    Tiled(pool, length, m) && Linked(m)
  }

  lemma NextFree(pool: nat, length: nat, m: Memory, a: nat) returns (next: nat)
    requires Listed(pool, length, m) && IsFreeAt(m, a) && a != GUARD
    ensures m[a].next == At(next) && a < next && IsFreeAt(m, next)
    ensures m[next].prior == At(a) && NoFreeBetween(m, a, next)
  {
    assert Link(m, a);
    next := m[a].next.addr;
  }

  lemma InsertedListed(pool: nat, length: nat, m: Memory, place: nat, node: nat, next: nat)
    requires Listed(pool, length, m) && UsedBlock(m, node)
    requires IsFreeAt(m, place) && place < node < next && m[place].next == At(next)
    ensures next in m && Listed(pool, length, Inserted(m, place, node, next))
  {
    assert Link(m, place);
    var m' := Inserted(m, place, node, next);
    assert forall x: nat :: x in m <==> x in m';
    assert forall x: nat :: IsFreeAt(m', x) <==> x == node || IsFreeAt(m, x);
    forall a: nat
      ensures Tile(pool, length, m', a)
    {
      assert Tile(pool, length, m, a);
    }
    forall a: nat
      ensures Link(m', a)
    {
      assert Link(m, a);
    }
  }

  lemma RemovedListed(pool: nat, length: nat, m: Memory, node: nat, prior: nat, next: nat)
    requires Listed(pool, length, m) && FreeBlock(m, node)
    requires IsFreeAt(m, prior) && m[prior].next == At(node) && prior < node && m[node].next == At(next)
    ensures next in m && Listed(pool, length, Removed(m, node, prior, next))
  {
    assert Link(m, node) && Link(m, prior);
    var m' := Removed(m, node, prior, next);
    assert forall x: nat :: x in m <==> x in m';
    assert forall x: nat :: IsFreeAt(m', x) <==> x != node && IsFreeAt(m, x);
    forall a: nat
      ensures Tile(pool, length, m', a)
    {
      assert Tile(pool, length, m, a);
    }
    forall a: nat
      ensures Link(m', a)
    {
      assert Link(m, a);
    }
  }

  lemma NeighbourIsNext(pool: nat, length: nat, m: Memory, low: nat, high: nat)
    requires Listed(pool, length, m) && FreeBlock(m, low) && FreeBlock(m, high)
    requires low + m[low].len == high
    ensures m[low].next == At(high)
  {
    assert Link(m, low) && Tile(pool, length, m, low) && IsFreeAt(m, high);
  }

  lemma MergedListed(pool: nat, length: nat, m: Memory, low: nat, high: nat, next: nat)
    requires Listed(pool, length, m) && FreeBlock(m, low) && FreeBlock(m, high)
    requires low + m[low].len == high && m[high].next == At(next)
    ensures next in m && Listed(pool, length, Merged(m, low, high, next))
  {
    NeighbourIsNext(pool, length, m, low, high);
    assert Link(m, low) && Link(m, high) && Tile(pool, length, m, low) && Tile(pool, length, m, high);
    var m' := Merged(m, low, high, next);
    assert forall x: nat :: x in m' <==> x in m && x != high;
    assert forall x: nat :: IsFreeAt(m', x) <==> x != high && IsFreeAt(m, x);
    forall a: nat
      ensures Tile(pool, length, m', a)
    {
      assert Tile(pool, length, m, a);
    }
    forall a: nat
      ensures Link(m', a)
    {
      assert Link(m, a);
    }
  }

  // ------------------------------------------- what the operations account for

  /** Two maps of the same blocks, of which `m'` has one more free. */
  lemma FreedAccount(pool: nat, length: nat, m: Memory, m': Memory, node: nat)
    requires Tiled(pool, length, m) && Tiled(pool, length, m') && UsedBlock(m, node)
    requires forall x: nat :: x in m <==> x in m'
    requires forall x: nat :: x in m ==> m'[x].len == m[x].len && (IsFree(m'[x]) <==> x == node || IsFree(m[x]))
    ensures Live(m') == Live(m) - {node} && Live(m) == Live(m')[node := m[node].len]
    ensures FreeBytes(m', pool, pool + length) == FreeBytes(m, pool, pool + length) + m[node].len
  {
    var y := node + m[node].len;
    assert Tile(pool, length, m, node) && Tile(pool, length, m', node);
    FreeBytesLocal(pool, length, m, m', node, y);
    assert FreeBytes(m, y, y) == 0 && FreeBytes(m', y, y) == 0;
  }

  lemma InsertedAccount(pool: nat, length: nat, m: Memory, place: nat, node: nat, next: nat)
    requires Listed(pool, length, m) && UsedBlock(m, node)
    requires IsFreeAt(m, place) && IsFreeAt(m, next) && place < node < next && m[place].next == At(next)
    requires Listed(pool, length, Inserted(m, place, node, next))
    ensures Live(Inserted(m, place, node, next)) == Live(m) - {node}
    ensures FreeBytes(Inserted(m, place, node, next), pool, pool + length)
            == FreeBytes(m, pool, pool + length) + m[node].len
  {
    FreedAccount(pool, length, m, Inserted(m, place, node, next), node);
  }

  lemma RemovedAccount(pool: nat, length: nat, m: Memory, node: nat, prior: nat, next: nat)
    requires Listed(pool, length, m) && FreeBlock(m, node)
    requires IsFreeAt(m, prior) && m[prior].next == At(node) && prior < node < next && m[node].next == At(next)
    requires IsFreeAt(m, next)
    requires Listed(pool, length, Removed(m, node, prior, next))
    ensures Live(Removed(m, node, prior, next)) == Live(m)[node := m[node].len]
    ensures FreeBytes(Removed(m, node, prior, next), pool, pool + length)
            == FreeBytes(m, pool, pool + length) - m[node].len
  {
    FreedAccount(pool, length, Removed(m, node, prior, next), m, node);
  }

  lemma MergedAccount(pool: nat, length: nat, m: Memory, low: nat, high: nat, next: nat)
    requires Listed(pool, length, m) && FreeBlock(m, low) && FreeBlock(m, high)
    requires low + m[low].len == high && m[high].next == At(next) && high < next && IsFreeAt(m, next)
    requires Listed(pool, length, Merged(m, low, high, next))
    ensures Live(Merged(m, low, high, next)) == Live(m)
    ensures FreeBytes(Merged(m, low, high, next), pool, pool + length) == FreeBytes(m, pool, pool + length)
  {
    hide Linked;
    var m' := Merged(m, low, high, next);
    assert Tile(pool, length, m, low) && Tile(pool, length, m, high) && Tile(pool, length, m', low);
    var y := high + m[high].len;
    FreeBytesLocal(pool, length, m, m', low, y);
    assert FreeBytes(m, y, y) == 0 && FreeBytes(m', y, y) == 0;
    assert FreeBytes(m, high, y) == m[high].len;
  }

  /** Cutting the free block `a` in two, the upper part used and the lower part left in the list. */
  function SplitHigh(m: Memory, a: nat, bytes: nat): Memory
    requires a in m && bytes < m[a].len
  {
    var m1 := m[a := m[a].(len := m[a].len - bytes)];
    m1[a + m[a].len - bytes := Node(bytes, At(0), End)]
  }

  /** Cutting the free block `a` in two, the lower part of `bytes` and the upper part not yet listed. */
  function SplitLow(m: Memory, a: nat, bytes: nat): Memory
    requires a in m && bytes < m[a].len
  {
    var m1 := m[a + bytes := Node(m[a].len - bytes, At(0), End)];
    m1[a := m1[a].(len := bytes)]
  }

  lemma SplitLowIsHigh(m: Memory, a: nat, bytes: nat)
    requires a in m && 0 < bytes < m[a].len
    ensures SplitLow(m, a, bytes) == SplitHigh(m, a, m[a].len - bytes)
  {
  }

  lemma SplitListed(pool: nat, length: nat, m: Memory, a: nat, bytes: nat)
    requires Listed(pool, length, m) && FreeBlock(m, a) && 0 < bytes < m[a].len
    ensures Listed(pool, length, SplitHigh(m, a, bytes))
    ensures a + m[a].len - bytes !in m
  {
    var m' := SplitHigh(m, a, bytes);
    var b := a + m[a].len - bytes;
    assert Tile(pool, length, m, a);
    assert forall x: nat :: x in m' <==> x == b || x in m;
    assert forall x: nat :: IsFreeAt(m', x) <==> IsFreeAt(m, x);
    forall x: nat
      ensures Tile(pool, length, m', x)
    {
      assert Tile(pool, length, m, x);
    }
    forall x: nat
      ensures Link(m', x)
    {
      assert Link(m, x);
    }
  }

  lemma SplitAccount(pool: nat, length: nat, m: Memory, a: nat, bytes: nat)
    requires Listed(pool, length, m) && FreeBlock(m, a) && 0 < bytes < m[a].len
    requires Listed(pool, length, SplitHigh(m, a, bytes))
    ensures Live(SplitHigh(m, a, bytes)) == Live(m)[a + m[a].len - bytes := bytes]
    ensures FreeBytes(SplitHigh(m, a, bytes), pool, pool + length)
            == FreeBytes(m, pool, pool + length) - bytes
  {
    var m' := SplitHigh(m, a, bytes);
    var b, y := a + m[a].len - bytes, a + m[a].len;
    assert Tile(pool, length, m, a) && Tile(pool, length, m', a) && Tile(pool, length, m', b);
    FreeBytesLocal(pool, length, m, m', a, y);
    assert FreeBytes(m, y, y) == 0 && FreeBytes(m', y, y) == 0;
    assert FreeBytes(m', b, y) == 0;
  }

  // ------------------------------------------------------------ neighbours

  ghost predicate Touch(m: Memory, x: nat, y: nat) {
    FreeBlock(m, x) && FreeBlock(m, y) && x + m[x].len == y
  }

  /** The only free neighbours are `low` with `high` and `high` with `next`. */
  ghost predicate TouchOnly(m: Memory, low: nat, high: nat, next: nat) {
    forall x: nat, y: nat {:trigger Touch(m, x, y)} ::
      Touch(m, x, y) ==> (x == low && y == high) || (x == high && y == next)
  }

  lemma TouchNone(m: Memory)
    ensures Coalesced(m) <==> forall x: nat, y: nat {:trigger Touch(m, x, y)} :: !Touch(m, x, y)
  {
    if Coalesced(m) {
      forall x: nat, y: nat
        ensures !Touch(m, x, y)
      {
      }
    } else {
      var a: nat, b: nat :| FreeBlock(m, a) && FreeBlock(m, b) && a + m[a].len == b;
      assert Touch(m, a, b);
    }
  }

  lemma InsertedTouch(pool: nat, length: nat, m: Memory, place: nat, node: nat, next: nat)
    requires Sound(pool, length, m) && UsedBlock(m, node) && {place, next} <= m.Keys
    requires IsFreeAt(m, place) && place < node < next && m[place].next == At(next)
    requires Listed(pool, length, Inserted(m, place, node, next))
    ensures TouchOnly(Inserted(m, place, node, next), place, node, next)
  {
    var m' := Inserted(m, place, node, next);
    assert Link(m', place) && Link(m', node) && Tile(pool, length, m', node);
    TouchNone(m);
    forall x: nat, y: nat | Touch(m', x, y)
      ensures (x == place && y == node) || (x == node && y == next)
    {
      NeighbourIsNext(pool, length, m', x, y);
      if x != node && y != node {
        assert Touch(m, x, y);
      }
      assert IsFreeAt(m', x) && IsFreeAt(m', place) && Link(m', x);
    }
  }

  lemma InsertedSound(pool: nat, length: nat, m: Memory, place: nat, node: nat, next: nat)
    requires Sound(pool, length, m) && UsedBlock(m, node)
    requires IsFreeAt(m, place) && IsFreeAt(m, next) && place < node < next && m[place].next == At(next)
    ensures var m' := Inserted(m, place, node, next);
            && Listed(pool, length, m') && TouchOnly(m', place, node, next)
            && Live(m') == Live(m) - {node}
            && FreeBytes(m', pool, pool + length) == FreeBytes(m, pool, pool + length) + m[node].len
  {
    InsertedListed(pool, length, m, place, node, next);
    InsertedAccount(pool, length, m, place, node, next);
    InsertedTouch(pool, length, m, place, node, next);
  }

  lemma NoTouch(m: Memory, r: nat)
    requires TouchOnly(m, r, 0, 0)
    ensures Coalesced(m)
  {
    TouchNone(m);
  }

  lemma MergedTouch(pool: nat, length: nat, m: Memory, low: nat, high: nat, next: nat, n: nat)
    requires Listed(pool, length, m) && FreeBlock(m, low) && FreeBlock(m, high)
    requires low + m[low].len == high && m[high].next == At(next) && next in m
    requires TouchOnly(m, low, high, n)
    ensures TouchOnly(Merged(m, low, high, next), low, n, 0)
  {
    var m' := Merged(m, low, high, next);
    forall x: nat, y: nat | Touch(m', x, y)
      ensures x == low && y == n
    {
      assert Touch(m, if x == low then high else x, y);
    }
  }

  lemma SplitTouch(pool: nat, length: nat, m: Memory, a: nat, bytes: nat)
    requires Sound(pool, length, m) && FreeBlock(m, a) && 0 < bytes < m[a].len
    requires Listed(pool, length, SplitHigh(m, a, bytes))
    ensures Coalesced(SplitHigh(m, a, bytes))
  {
    var m' := SplitHigh(m, a, bytes);
    assert Tile(pool, length, m, a);
    TouchNone(m);
    TouchNone(m');
    forall x: nat, y: nat
      ensures !Touch(m', x, y)
    {
      assert !Touch(m, x, y);
    }
  }

  /** After cutting off the lower part of `a` for use, the rest has no free neighbour. */
  lemma CutTouch(pool: nat, length: nat, m: Memory, a: nat, bytes: nat, m': Memory)
    requires Sound(pool, length, m) && FreeBlock(m, a) && 0 < bytes < m[a].len
    requires Listed(pool, length, m') && UsedBlock(m', a) && m'[a].len == bytes
    requires FreeBlock(m', a + bytes) && m'[a + bytes].len == m[a].len - bytes
    requires forall x: nat :: x != a && x != a + bytes ==>
               (FreeBlock(m', x) <==> FreeBlock(m, x)) && (FreeBlock(m, x) ==> m'[x].len == m[x].len)
    ensures Coalesced(m')
  {
    assert Tile(pool, length, m', a) && Tile(pool, length, m', a + bytes);
    TouchNone(m);
    TouchNone(m');
    forall x: nat, y: nat
      ensures !Touch(m', x, y)
    {
      assert Tile(pool, length, m', x);
      assert !Touch(m, x, y) && !Touch(m, a, y);
    }
  }

  // -------------------------------------------------------------- allocation

  ghost predicate Fits(m: Memory, a: nat, bytes: nat) {
    FreeBlock(m, a) && bytes <= m[a].len
  }

  /** More than the free bytes in all fits nowhere. */
  lemma NothingFits(pool: nat, length: nat, m: Memory, bytes: nat)
    requires Tiled(pool, length, m) && bytes > FreeBytes(m, pool, pool + length)
    ensures forall a: nat :: !Fits(m, a, bytes)
  {
    forall a: nat
      ensures !Fits(m, a, bytes)
    {
      if FreeBlock(m, a) {
        FreeBytesAtLeast(pool, length, m, a);
      }
    }
  }

  lemma NoFitBetween(m: Memory, a: nat, b: nat, bytes: nat)
    requires NoFreeBetween(m, a, b)
    ensures forall x: nat :: a < x < b ==> !Fits(m, x, bytes)
  {
    forall x: nat | a < x < b
      ensures !Fits(m, x, bytes)
    {
      assert !IsFreeAt(m, x);
    }
  }

  /** No block lies at or beyond the upper guard. */
  lemma NoFitAbove(pool: nat, length: nat, m: Memory, bytes: nat)
    requires Tiled(pool, length, m)
    ensures forall x: nat :: x >= GUARD ==> !Fits(m, x, bytes)
  {
    forall x: nat | x >= GUARD
      ensures !Fits(m, x, bytes)
    {
      assert Tile(pool, length, m, x);
    }
  }

  /** A free node without a predecessor in the list is the lower guard. */
  lemma NoFitBelow(pool: nat, length: nat, m: Memory, a: nat, bytes: nat)
    requires Listed(pool, length, m) && IsFreeAt(m, a) && m[a].prior == End
    ensures a == 0 && !Fits(m, 0, bytes)
  {
    if a != 0 {
      var p := PriorFree(pool, length, m, a);
    }
  }

  /** Giving out a whole free block. */
  lemma TakeWhole(pool: nat, length: nat, m: Memory, node: nat, prior: nat, next: nat)
    requires Sound(pool, length, m) && FreeBlock(m, node) && m[node].next == At(next)
    requires IsFreeAt(m, prior) && m[prior].next == At(node) && prior < node < next && IsFreeAt(m, next)
    ensures var m' := Removed(m, node, prior, next);
            && Sound(pool, length, m') && Live(m') == Live(m)[node := m[node].len]
            && FreeBytes(m', pool, pool + length) == FreeBytes(m, pool, pool + length) - m[node].len
  {
    RemovedListed(pool, length, m, node, prior, next);
    RemovedAccount(pool, length, m, node, prior, next);
    var m' := Removed(m, node, prior, next);
    TouchNone(m);
    TouchNone(m');
    forall x: nat, y: nat
      ensures !Touch(m', x, y)
    {
      assert !Touch(m, x, y);
    }
  }

  /** Giving out the upper part of a free block. */
  lemma TakeHigh(pool: nat, length: nat, m: Memory, a: nat, bytes: nat)
    requires Sound(pool, length, m) && FreeBlock(m, a) && 0 < bytes < m[a].len
    ensures var m' := SplitHigh(m, a, bytes);
            && Sound(pool, length, m') && Live(m') == Live(m)[a + m[a].len - bytes := bytes]
            && FreeBytes(m', pool, pool + length) == FreeBytes(m, pool, pool + length) - bytes
    ensures a + m[a].len - bytes !in m
  {
    SplitListed(pool, length, m, a, bytes);
    SplitAccount(pool, length, m, a, bytes);
    SplitTouch(pool, length, m, a, bytes);
  }

  /** The map while the upper part of a cut block is being linked after the lower one. */
  lemma CutInserted(pool: nat, length: nat, m: Memory, a: nat, bytes: nat, prior: nat, next: nat)
    requires Sound(pool, length, m) && FreeBlock(m, a) && 0 < bytes < m[a].len
    requires m[a].next == At(next) && a < next && IsFreeAt(m, next)
    requires IsFreeAt(m, prior) && prior < a && m[prior].next == At(a) && m[a].prior == At(prior)
    ensures a + bytes < next && a + bytes !in m && a + bytes < GUARD
    ensures var m1 := SplitLow(m, a, bytes);
            var m2 := Inserted(m1, a, a + bytes, next);
            && Listed(pool, length, m2) && FreeBlock(m2, a) && m2[a] == Node(bytes, At(a + bytes), At(prior))
            && IsFreeAt(m2, a + bytes) && IsFreeAt(m2, prior) && m2[prior].next == At(a)
            && Live(m2) == Live(m)
            && FreeBytes(m2, pool, pool + length) == FreeBytes(m, pool, pool + length)
  {
    hide FreeBytes;
    var rest := m[a].len - bytes;
    SplitLowIsHigh(m, a, bytes);
    SplitListed(pool, length, m, a, rest);
    SplitAccount(pool, length, m, a, rest);
    var m1 := SplitLow(m, a, bytes);
    assert Tile(pool, length, m, a) && next != a + bytes && !(a < next < a + bytes);
    InsertedListed(pool, length, m1, a, a + bytes, next);
    InsertedAccount(pool, length, m1, a, a + bytes, next);
    assert Live(m1) - {a + bytes} == Live(m);
  }

  /** Giving out the lower part of a free block: the rest is cut off and listed, and the block removed. */
  lemma TakeLow(pool: nat, length: nat, m: Memory, a: nat, bytes: nat, prior: nat, next: nat)
    requires Sound(pool, length, m) && FreeBlock(m, a) && 0 < bytes < m[a].len
    requires m[a].next == At(next) && a < next && IsFreeAt(m, next)
    requires IsFreeAt(m, prior) && prior < a && m[prior].next == At(a) && m[a].prior == At(prior)
    ensures a + bytes < next
    ensures var m2 := Inserted(SplitLow(m, a, bytes), a, a + bytes, next);
            {a, prior, a + bytes} <= m2.Keys
            && var m' := Removed(m2, a, prior, a + bytes);
            && Sound(pool, length, m') && Live(m') == Live(m)[a := bytes]
            && FreeBytes(m', pool, pool + length) == FreeBytes(m, pool, pool + length) - bytes
  {
    hide Tiled, Linked, FreeBytes, Coalesced;
    CutInserted(pool, length, m, a, bytes, prior, next);
    var m2 := Inserted(SplitLow(m, a, bytes), a, a + bytes, next);
    RemovedListed(pool, length, m2, a, prior, a + bytes);
    RemovedAccount(pool, length, m2, a, prior, a + bytes);
    CutTouch(pool, length, m, a, bytes, Removed(m2, a, prior, a + bytes));
  }

  // ------------------------------------------------------------ canonical form

  lemma Highest(s: set<nat>) returns (x: nat)
    requires s != {}
    ensures x in s && forall y :: y in s ==> y <= x
  {
    var first :| first in s;
    x := first;
    if s != {first} {
      var y := Highest(s - {first});
      x := if y > first then y else first;
      assert forall z :: z in s ==> z == first || z in s - {first};
    }
  }

  lemma Lowest(s: set<nat>) returns (x: nat)
    requires s != {}
    ensures x in s && forall y :: y in s ==> x <= y
  {
    var first :| first in s;
    x := first;
    if s != {first} {
      var y := Lowest(s - {first});
      x := if y < first then y else first;
      assert forall z :: z in s ==> z == first || z in s - {first};
    }
  }

  /** Every block but the first starts where another one ends. */
  lemma Predecessor(pool: nat, length: nat, m: Memory, a: nat) returns (p: nat)
    requires Tiled(pool, length, m) && IsBlock(m, a) && a != pool
    ensures IsBlock(m, p) && p < a && p + m[p].len == a
  {
    assert Tile(pool, length, m, a);
    var below := set x: nat | x in m && 0 < x < a;
    assert pool in below;
    p := Highest(below);
    assert Tile(pool, length, m, p);
    assert p + m[p].len !in below;
  }

  /** A free block of one sound map is a block of any other with the same live blocks. */
  lemma FreeBlockShared(pool: nat, length: nat, m1: Memory, m2: Memory, a: nat)
    requires Sound(pool, length, m1) && Sound(pool, length, m2) && Live(m1) == Live(m2)
    requires FreeBlock(m1, a)
    ensures FreeBlock(m2, a)
  {
    if a != pool {
      var p := Predecessor(pool, length, m1, a);
      assert !FreeBlock(m1, p);
      assert p in Live(m1) && Live(m1)[p] == m1[p].len;
      assert p in Live(m2) && Live(m2)[p] == m2[p].len;
      assert Tile(pool, length, m2, p) && Tile(pool, length, m1, a);
    }
    assert a !in Live(m1);
    assert a !in Live(m2);
  }

  lemma FreeLenShared(pool: nat, length: nat, m1: Memory, m2: Memory, a: nat)
    requires Sound(pool, length, m1) && Sound(pool, length, m2) && Live(m1) == Live(m2)
    requires FreeBlock(m1, a) && FreeBlock(m2, a)
    ensures m1[a].len <= m2[a].len
  {
    assert Tile(pool, length, m1, a) && Tile(pool, length, m2, a);
    var b := a + m2[a].len;
    assert !FreeBlock(m2, b);
    assert b in Live(m2) <==> b in Live(m1);
  }

  /** The heap is canonical: its free list is a function of the live blocks alone. */
  lemma Canonical(pool: nat, length: nat, m1: Memory, m2: Memory)
    requires Sound(pool, length, m1) && Sound(pool, length, m2) && Live(m1) == Live(m2)
    ensures FreeList(m1) == FreeList(m2)
    ensures FreeBytes(m1, pool, pool + length) == FreeBytes(m2, pool, pool + length)
  {
    forall a: nat
      ensures FreeBlock(m1, a) <==> FreeBlock(m2, a)
      ensures FreeBlock(m1, a) ==> m1[a].len == m2[a].len
    {
      if FreeBlock(m1, a) {
        FreeBlockShared(pool, length, m1, m2, a);
        FreeLenShared(pool, length, m1, m2, a);
        FreeLenShared(pool, length, m2, m1, a);
      } else if FreeBlock(m2, a) {
        FreeBlockShared(pool, length, m2, m1, a);
      }
    }
    forall a: nat
      ensures a in m1 <==> a in m2
      ensures a in m1 ==> m1[a].len == m2[a].len && (IsFree(m1[a]) <==> IsFree(m2[a]))
    {
      GuardFree(pool, length, m1);
      GuardFree(pool, length, m2);
      assert a in Live(m1) <==> a in Live(m2);
      assert a in Live(m1) ==> Live(m1)[a] == Live(m2)[a];
      assert a in m1 ==> a == 0 || a == GUARD || FreeBlock(m1, a) || a in Live(m1);
      assert a in m2 ==> a == 0 || a == GUARD || FreeBlock(m2, a) || a in Live(m2);
    }
    forall a: nat | IsFreeAt(m1, a)
      ensures m1[a] == m2[a]
    {
      SameNext(pool, length, m1, m2, a);
      SamePrior(pool, length, m1, m2, a);
    }
    FreeBytesFrame(m1, m2, pool, pool + length);
  }

  lemma LiveIsUsed(pool: nat, length: nat, m: Memory, a: nat)
    requires Listed(pool, length, m) && a in Live(m)
    ensures UsedBlock(m, a)
  {
  }

  lemma GuardFree(pool: nat, length: nat, m: Memory)
    requires Listed(pool, length, m)
    ensures IsFreeAt(m, 0) && IsFreeAt(m, GUARD)
  {
  }

  ghost predicate SameFree(m1: Memory, m2: Memory) {
    forall a: nat :: IsFreeAt(m1, a) <==> IsFreeAt(m2, a)
  }

  lemma SameNext(pool: nat, length: nat, m1: Memory, m2: Memory, a: nat)
    requires Listed(pool, length, m1) && Listed(pool, length, m2)
    requires IsFreeAt(m1, a) && IsFreeAt(m2, a) && SameFree(m1, m2)
    ensures m1[a].next == m2[a].next
  {
    if a != GUARD {
      var n1 := NextFree(pool, length, m1, a);
      var n2 := NextFree(pool, length, m2, a);
      assert IsFreeAt(m1, n2) && IsFreeAt(m2, n1);
    }
  }

  /** Every free node but the first is the next of the one its `prior` names. */
  lemma PriorFree(pool: nat, length: nat, m: Memory, a: nat) returns (p: nat)
    requires Listed(pool, length, m) && IsFreeAt(m, a) && a != 0
    ensures IsFreeAt(m, p) && p < a && m[a].prior == At(p) && m[p].next == At(a) && NoFreeBetween(m, p, a)
  {
    var below := set x: nat | x in m && IsFreeAt(m, x) && x < a;
    assert 0 in below;
    p := Highest(below);
    assert p != GUARD by {
      assert Tile(pool, length, m, a);
    }
    var n := NextFree(pool, length, m, p);
    assert n !in below;
  }

  lemma SamePrior(pool: nat, length: nat, m1: Memory, m2: Memory, a: nat)
    requires Listed(pool, length, m1) && Listed(pool, length, m2)
    requires IsFreeAt(m1, a) && IsFreeAt(m2, a) && SameFree(m1, m2)
    ensures m1[a].prior == m2[a].prior
  {
    if a != 0 {
      var p1 := PriorFree(pool, length, m1, a);
      var p2 := PriorFree(pool, length, m2, a);
      assert IsFreeAt(m1, p2) && IsFreeAt(m2, p1);
    }
  }

  /** The map of a heap that has given out nothing. */
  function Fresh(pool: nat, length: nat): Memory {
    map[0 := Node(0, At(pool), End), pool := Node(length, At(GUARD), At(0)), GUARD := Node(0, End, At(pool))]
  }

  lemma FreshSound(pool: nat, length: nat)
    requires 0 < pool && 0 < length && pool + length < GUARD
    ensures Sound(pool, length, Fresh(pool, length)) && Live(Fresh(pool, length)) == map[]
    ensures FreeBytes(Fresh(pool, length), pool, pool + length) == length
  {
    var m := Fresh(pool, length);
    forall a: nat
      ensures Tile(pool, length, m, a) && Link(m, a)
    {
    }
    assert FreeBytes(m, pool + length, pool + length) == 0;
  }

  /** Freeing everything gives back the single initial block. */
  lemma AllFreed(pool: nat, length: nat, m: Memory)
    requires Sound(pool, length, m) && Live(m) == map[]
    ensures m == Fresh(pool, length)
  {
    FreshSound(pool, length);
    Canonical(pool, length, m, Fresh(pool, length));
    forall a: nat | a in m
      ensures IsFree(m[a])
    {
      assert a !in Live(m);
    }
    assert FreeList(m) == m;
    assert FreeList(Fresh(pool, length)) == Fresh(pool, length);
  }
}

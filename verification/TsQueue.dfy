/// The intrusive lists: hooks linked in both directions, a list that owns a run
/// of hooks, and a queue whose hooks hang behind a dummy head. Both stand for
/// the sequence of their hooks.
module TsQueues {
  import opened Sequences

  class Hook {
    var prev: Hook?
    var next: Hook?
    var check: TSQueue?

    constructor ()
      ensures prev == null && next == null && check == null
    {
      prev, next, check := null, null, null;
    }
  }

  ghost predicate Apart(a: seq<Hook>, b: seq<Hook>) {
    forall i: nat, j: nat :: i < |a| && j < |b| ==> a[i] != b[j]
  }

  lemma DistinctConcat(a: seq<Hook>, b: seq<Hook>)
    ensures NoRepeats(a + b) <==> NoRepeats(a) && NoRepeats(b) && Apart(a, b)
  {
    var c := a + b;
    if NoRepeats(c) {
      assert forall i: nat :: i < |a| ==> a[i] == c[i];
      assert forall j: nat :: j < |b| ==> b[j] == c[|a| + j];
    }
  }

  /** The i-th hook points to its two neighbours. */
  ghost predicate Linked(nodes: seq<Hook>, i: nat)
    requires i < |nodes|
    reads nodes`prev, nodes`next
  {
    && nodes[i].prev == (if i > 0 then nodes[i - 1] else null)
    && nodes[i].next == (if i + 1 < |nodes| then nodes[i + 1] else null)
  }

  /** The hooks are linked in this order, in both directions, and to nothing else. */
  ghost predicate Chain(nodes: seq<Hook>)
    reads nodes`prev, nodes`next
  {
    NoRepeats(nodes) && forall i: nat :: i < |nodes| ==> Linked(nodes, i)
  }

  /** Joins two chains. */
  method Link(last: Hook, first: Hook, ghost a: seq<Hook>, ghost b: seq<Hook>)
    requires a != [] && b != [] && last == a[|a| - 1] && first == b[0]
    requires Chain(a) && Chain(b) && Apart(a, b)
    modifies last`next, first`prev
    ensures Chain(a + b)
  {
    last.next := first;
    first.prev := last;
    DistinctConcat(a, b);
    forall i: nat | i < |a + b|
      ensures Linked(a + b, i)
    {
      if i < |a| {
        assert old(Linked(a, i));
      } else {
        assert old(Linked(b, i - |a|));
      }
    }
  }

  /** Cuts a chain in two. */
  method Unlink(last: Hook, first: Hook, ghost a: seq<Hook>, ghost b: seq<Hook>)
    requires a != [] && b != [] && last == a[|a| - 1] && first == b[0]
    requires Chain(a + b)
    modifies last`next, first`prev
    ensures Chain(a) && Chain(b)
  {
    DistinctConcat(a, b);
    last.next := null;
    first.prev := null;
    forall i: nat | i < |a|
      ensures Linked(a, i)
    {
      assert old(Linked(a + b, i));
    }
    forall j: nat | j < |b|
      ensures Linked(b, j)
    {
      assert old(Linked(a + b, |a| + j));
    }
  }

  /** Takes one hook out of a chain. */
  method Bypass(hook: Hook, ghost a: seq<Hook>, ghost b: seq<Hook>)
    requires Chain(a + [hook] + b)
    modifies a`next, b`prev, hook`prev, hook`next
    ensures Chain(a + b) && hook.prev == null && hook.next == null
  {
    ghost var all := a + [hook] + b;
    DistinctConcat(a + [hook], b);
    DistinctConcat(a, [hook]);
    DistinctConcat(a, b);
    assert forall i: nat :: i < |a| ==> a[i] == (a + [hook])[i];
    assert Linked(all, |a|);
    assert a != [] ==> hook.prev == a[|a| - 1];
    assert b != [] ==> hook.next == b[0];
    if hook.prev != null {
      hook.prev.next := hook.next;
    }
    if hook.next != null {
      hook.next.prev := hook.prev;
    }
    hook.prev, hook.next := null, null;
    forall i: nat | i < |a + b|
      ensures Linked(a + b, i)
    {
      if i < |a| {
        assert old(Linked(all, i));
      } else {
        assert old(Linked(all, i + 1));
      }
    }
  }

  /** Takes a stretch of hooks out of a chain, after the hook `before`. */
  method Extract(before: Hook, first: Hook, last: Hook, ghost a: seq<Hook>, ghost mid: seq<Hook>, ghost b: seq<Hook>)
    requires a != [] && mid != [] && Chain(a + mid + b)
    requires before == a[|a| - 1] && first == mid[0] && last == mid[|mid| - 1]
    modifies before`next, b`prev, first`prev, last`next
    ensures Chain(a + b) && Chain(mid)
  {
    ghost var all := a + mid + b;
    DistinctConcat(a + mid, b);
    DistinctConcat(a, mid);
    DistinctConcat(a, b);
    assert forall i: nat :: i < |a| ==> a[i] == (a + mid)[i];
    assert forall i: nat :: i < |mid| ==> mid[i] == (a + mid)[|a| + i];
    assert Linked(all, |a| + |mid| - 1);
    assert b != [] ==> last.next == b[0];
    before.next := last.next;
    if last.next != null {
      last.next.prev := before;
    }
    first.prev := null;
    last.next := null;
    forall i: nat | i < |a + b|
      ensures Linked(a + b, i)
    {
      assert old(Linked(all, if i < |a| then i else |mid| + i));
    }
    forall i: nat | i < |mid|
      ensures Linked(mid, i)
    {
      assert old(Linked(all, |a| + i));
    }
  }

  /** How many hooks a request for n takes out of a queue: at least one, if there is one. */
  function Taken(n: nat, size: nat): nat {
    if size == 0 then 0 else if n == 0 then 1 else if n < size then n else size
  }

  lemma TakenSpec(n: nat, size: nat)
    ensures Taken(n, size) <= size && Taken(n, size) <= if n == 0 then 1 else n
    ensures Taken(n, size) < size ==> Taken(n, size) == if n == 0 then 1 else n
    ensures size > 0 ==> Taken(n, size) > 0
  {
  }

  /** Steps forward along a chain until n hooks are counted or the chain ends. */
  method Walk(first: Hook, n: nat, ghost all: seq<Hook>) returns (last: Hook, c: nat)
    requires Chain(all) && |all| >= 2 && first == all[1]
    ensures c == Taken(n, |all| - 1) && last == all[c] && (last == all[|all| - 1] <==> c + 1 == |all|)
  {
    last, c := first, 1;
    while c < n && last.next != null
      invariant 1 <= c < |all| && (c <= n || c == 1) && last == all[c]
    {
      assert Linked(all, c);
      last, c := last.next, c + 1;
    }
    assert Linked(all, c);
  }

  /** Steps back from the end until n hooks are counted or only the dummy head is left. */
  method WalkBack(last: Hook, head: Hook, n: nat, ghost all: seq<Hook>) returns (first: Hook, c: nat)
    requires Chain(all) && |all| >= 2 && last == all[|all| - 1] && head == all[0]
    ensures c == Taken(n, |all| - 1) && first == all[|all| - c] && first.prev == all[|all| - c - 1]
  {
    first, c := last, 1;
    while c < n && first.prev != head
      invariant 1 <= c < |all| && (c <= n || c == 1) && first == all[|all| - c]
      decreases n - c
    {
      assert Linked(all, |all| - c);
      first, c := first.prev, c + 1;
    }
    assert Linked(all, |all| - c);
  }

  /** A list that owns a run of hooks. */
  class SList {
    var head: Hook?
    var tail: Hook?
    var count: nat
    ghost var nodes: seq<Hook>

    ghost predicate Valid()
      reads this, nodes`prev, nodes`next
    {
      && Chain(nodes) && count == |nodes|
      && (if nodes == [] then head == null && tail == null else head == nodes[0] && tail == nodes[|nodes| - 1])
    }

    constructor (head: Hook?, tail: Hook?, count: nat, ghost nodes: seq<Hook>)
      requires Chain(nodes) && count == |nodes|
      requires if nodes == [] then head == null && tail == null else head == nodes[0] && tail == nodes[|nodes| - 1]
      ensures Valid() && this.nodes == nodes
    {
      this.head, this.tail, this.count, this.nodes := head, tail, count, nodes;
    }

    method Stealed()
      modifies this
      ensures Valid() && nodes == []
    {
      head, tail, count, nodes := null, null, 0, [];
    }

    /** Moves the other list's hooks to the end of this one. */
    method Append(other: SList)
      requires Valid() && other.Valid() && this != other && Apart(nodes, other.nodes)
      modifies this, other, nodes`next, other.nodes`prev
      ensures Valid() && nodes == old(nodes) + old(other.nodes)
      ensures other.Valid() && other.nodes == []
    {
      hide NoRepeats, Linked, Chain;
      if other.head == null {
        return;
      }
      if head == null {
        head, tail, count, nodes := other.head, other.tail, other.count, other.nodes;
        other.Stealed();
        return;
      }
      Link(tail, other.head, nodes, other.nodes);
      tail, count, nodes := other.tail, count + other.count, nodes + other.nodes;
      other.Stealed();
    }

    /** Cuts off the first n hooks, or all there are. */
    method Cut(n: nat) returns (o: SList)
      requires Valid()
      modifies this, nodes`next, nodes`prev
      ensures fresh(o) && o.Valid() && Valid() && o.nodes + nodes == old(nodes)
      ensures |o.nodes| == if n < |old(nodes)| then n else |old(nodes)|
    {
      hide NoRepeats;
      if head == null || n == 0 {
        o := new SList(null, null, 0, []);
        return;
      }
      if n >= count {
        o := new SList(head, tail, count, nodes);
        Stealed();
        return;
      }
      var pos := head;
      for i := 1 to n
        invariant pos == nodes[i - 1]
        modifies {}
      {
        assert Linked(nodes, i - 1);
        pos := pos.next;
      }
      assert Linked(nodes, n - 1);
      ghost var a, b := nodes[..n], nodes[n..];
      assert nodes == a + b && pos == a[n - 1] && pos.next == b[0];
      var first := head;
      head := pos.next;
      Unlink(pos, head, a, b);
      o := new SList(first, pos, n, a);
      count, nodes := count - n, b;
    }

    /** Takes one hook out of the list. */
    method Erase(hook: Hook, ghost k: nat)
      requires Valid() && k < |nodes| && nodes[k] == hook
      modifies this, nodes`next, nodes`prev
      ensures Valid() && nodes == old(nodes)[..k] + old(nodes)[k + 1..]
      ensures hook.prev == null && hook.next == null
    {
      ghost var a, b := nodes[..k], nodes[k + 1..];
      assert nodes == a + [hook] + b && Linked(nodes, k);
      if hook.prev == null {
        head := head.next;
      }
      if hook.next == null {
        assert k > 0 ==> tail.prev == a[k - 1];
        tail := tail.prev;
      }
      Bypass(hook, a, b);
      count, nodes := count - 1, a + b;
    }
  }

  /** A queue of hooks behind a dummy head. */
  class TSQueue {
    const head: Hook
    var tail: Hook
    var count: nat
    ghost var nodes: seq<Hook>

    ghost predicate Valid()
      reads this, head`prev, head`next, nodes`prev, nodes`next
    {
      && Chain([head] + nodes) && count == |nodes|
      && tail == ([head] + nodes)[|nodes|]
    }

    constructor ()
      ensures Valid() && nodes == [] && fresh(head)
    {
      head := new Hook();
      tail, count, nodes := head, 0, [];
    }

    lemma Emptiness()
      requires Valid()
      ensures head == tail <==> nodes == []
      ensures nodes != [] ==> head.next == nodes[0]
    {
      assert nodes != [] ==> ([head] + nodes)[|nodes|] != ([head] + nodes)[0];
      assert Linked([head] + nodes, 0);
    }

    lemma NodesDistinct()
      requires Valid()
      ensures NoRepeats(nodes) && head !in nodes
    {
      DistinctConcat([head], nodes);
      assert [head][0] == head;
    }

    /** Links one free hook at the end, marked as this queue's. */
    method Push(hook: Hook) returns (size: nat)
      requires Valid() && hook.prev == null && hook.next == null && hook != head && hook !in nodes
      modifies this, head`next, nodes`next, hook
      ensures Valid() && nodes == old(nodes) + [hook] && size == |nodes| && hook.check == this
    {
      assert Linked([hook], 0);
      Link(tail, hook, [head] + nodes, [hook]);
      assert [head] + nodes + [hook] == [head] + (nodes + [hook]);
      tail := hook;
      hook.check := this;
      count, nodes := count + 1, nodes + [hook];
      size := count;
    }

    /** Moves a list's hooks to the end of the queue. */
    method PushList(elements: SList)
      requires Valid() && elements.Valid() && Apart([head] + nodes, elements.nodes)
      modifies this, elements, tail`next, elements.nodes`prev
      ensures Valid() && nodes == old(nodes) + old(elements.nodes)
      ensures elements.Valid() && elements.nodes == []
    {
      hide NoRepeats, Linked, Chain;
      if elements.head == null {
        return;
      }
      Link(tail, elements.head, [head] + nodes, elements.nodes);
      assert [head] + nodes + elements.nodes == [head] + (nodes + elements.nodes);
      tail, count, nodes := elements.tail, count + elements.count, nodes + elements.nodes;
      elements.Stealed();
    }

    method Pop() returns (ptr: Hook?)
      requires Valid()
      modifies this, head`next, nodes
      ensures Valid()
      ensures old(nodes) == [] ==> ptr == null && nodes == []
      ensures old(nodes) != [] ==> ptr == old(nodes)[0] && nodes == old(nodes)[1..]
      ensures old(nodes) != [] ==> ptr.prev == null && ptr.next == null && ptr.check == null
    {
      Emptiness();
      if head == tail {
        return null;
      }
      assert Linked([head] + nodes, 0);
      ptr := head.next;
      if ptr == tail {
        tail := head;
      }
      ghost var rest := nodes[1..];
      assert [head] + nodes == [head] + [ptr] + rest;
      Extract(head, ptr, ptr, [head], [ptr], rest);
      assert Linked([ptr], 0);
      ptr.check := null;
      count, nodes := count - 1, rest;
    }

    method PopFront(n: nat) returns (o: SList)
      requires Valid()
      modifies this, head`next, nodes`prev, nodes`next
      ensures fresh(o) && o.Valid() && Valid()
      ensures o.nodes + nodes == old(nodes) && |o.nodes| == Taken(n, |old(nodes)|)
      ensures |o.nodes| <= (if n == 0 then 1 else n) && (nodes != [] ==> |o.nodes| == if n == 0 then 1 else n)
    {
      hide NoRepeats, Linked, Chain, Taken;
      TakenSpec(n, |nodes|);
      Emptiness();
      if head == tail {
        o := new SList(null, null, 0, []);
        return;
      }
      ghost var all := [head] + nodes;
      var first := head.next;
      var last, c := Walk(first, n, all);
      if last == tail {
        tail := head;
      }
      ghost var taken, rest := nodes[..c], nodes[c..];
      assert all == [head] + taken + rest && last == taken[c - 1];
      assert ([head] + rest)[|rest|] == if rest == [] then head else all[|nodes|];
      Extract(head, first, last, [head], taken, rest);
      count, nodes := count - c, rest;
      o := new SList(first, last, c, taken);
    }

    method PopBack(n: nat) returns (o: SList)
      requires Valid()
      modifies this, head`next, nodes`prev, nodes`next
      ensures fresh(o) && o.Valid() && Valid()
      ensures nodes + o.nodes == old(nodes) && |o.nodes| == Taken(n, |old(nodes)|)
      ensures |o.nodes| <= (if n == 0 then 1 else n) && (nodes != [] ==> |o.nodes| == if n == 0 then 1 else n)
    {
      hide NoRepeats, Linked, Chain, Taken;
      TakenSpec(n, |nodes|);
      Emptiness();
      if head == tail {
        o := new SList(null, null, 0, []);
        return;
      }
      ghost var all, size := [head] + nodes, |nodes|;
      var last := tail;
      var first, c := WalkBack(last, head, n, all);
      tail := first.prev;
      ghost var rest, taken := nodes[..size - c], nodes[size - c..];
      assert all == [head] + rest + taken;
      Unlink(tail, first, [head] + rest, taken);
      count, nodes := count - c, rest;
      o := new SList(first, last, c, taken);
    }

    method PopAll() returns (o: SList)
      requires Valid()
      modifies this, head`next, nodes`prev, nodes`next
      ensures fresh(o) && o.Valid() && Valid()
      ensures o.nodes == old(nodes) && nodes == []
    {
      hide NoRepeats, Linked, Chain;
      Emptiness();
      if head == tail {
        o := new SList(null, null, 0, []);
        return;
      }
      var first, last, c := head.next, tail, count;
      tail, count := head, 0;
      Unlink(head, first, [head], nodes);
      o := new SList(first, last, c, nodes);
      nodes := [];
      assert [head] + nodes == [head];
    }

    /** Takes one hook out, unless it is asked to check and finds the hook marked as another queue's. */
    method Erase(hook: Hook, check: bool, ghost k: nat) returns (ok: bool)
      requires Valid() && (!check || hook.check == this ==> k < |nodes| && nodes[k] == hook)
      modifies this, head`next, nodes`prev, nodes`next, hook
      ensures Valid() && ok == (!check || old(hook.check) == this)
      ensures !ok ==> nodes == old(nodes) && hook.check == old(hook.check)
      ensures ok ==> nodes == old(nodes)[..k] + old(nodes)[k + 1..]
      ensures ok ==> hook.prev == null && hook.next == null && hook.check == null
    {
      hide NoRepeats;
      if check && hook.check != this {
        return false;
      }
      ghost var all, a, b := [head] + nodes, nodes[..k], nodes[k + 1..];
      assert all == [head] + a + [hook] + b && Linked(all, k + 1);
      if hook.next == null {
        tail := tail.prev;
      }
      Bypass(hook, [head] + a, b);
      assert [head] + a + b == [head] + (a + b);
      hook.check := null;
      count, nodes := count - 1, a + b;
      return true;
    }
  }

  /** Cutting a list in two and appending the rest again is the identity. */
  method CutThenAppend(list: SList, n: nat) returns (whole: SList)
    requires list.Valid()
    modifies list, list.nodes`prev, list.nodes`next
    ensures whole.Valid() && whole.nodes == old(list.nodes)
    ensures list.Valid() && list.nodes == []
  {
    hide Linked;
    ghost var all := list.nodes;
    assert NoRepeats(all);
    whole := list.Cut(n);
    DistinctConcat(whole.nodes, list.nodes);
    assert forall i: nat :: i < |whole.nodes| ==> whole.nodes[i] == all[i];
    assert forall i: nat :: i < |list.nodes| ==> list.nodes[i] == all[|whole.nodes| + i];
    whole.Append(list);
  }

  /** Taking everything out of a queue and pushing it again restores the queue. */
  method PopAllThenPush(queue: TSQueue)
    requires queue.Valid()
    modifies queue, queue.head`next, queue.nodes`prev, queue.nodes`next
    ensures queue.Valid() && queue.nodes == old(queue.nodes)
  {
    hide Linked;
    ghost var all := queue.nodes;
    DistinctConcat([queue.head], all);
    var list := queue.PopAll();
    assert [queue.head] + [] == [queue.head];
    queue.PushList(list);
  }
}

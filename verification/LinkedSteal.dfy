/// Stealing over the linked queues themselves: the operations of `TsQueues`, applied
/// as the processor applies them, divide the hooks as `Stealing` says.
module LinkedStealing {
  import opened Options
  import opened Sequences
  import opened Stealing
  import opened TsQueues

  ghost predicate Within(q: seq<Hook>, all: seq<Hook>) {
    forall i: nat :: i < |q| ==> q[i] in all
  }

  lemma {:induction false} WithoutAt(q: seq<Hook>, h: Hook, k: nat)
    requires NoRepeats(q) && k < |q| && q[k] == h
    ensures Without(q, h) == q[..k] + q[k + 1..]
  {
    if k > 0 {
      assert forall i: nat :: i < |q[1..]| ==> q[1..][i] == q[i + 1];
      WithoutAt(q[1..], h, k - 1);
      assert [q[0]] + q[1..][..k - 1] == q[..k];
    }
  }

  lemma SplitOut(a: seq<Hook>, h: Hook, b: seq<Hook>)
    requires NoRepeats(a + [h] + b)
    ensures NoRepeats(a + b) && h !in a && h !in b
  {
    var all := a + [h] + b;
    assert all[|a|] == h;
    assert forall i: nat :: i < |a| ==> a[i] == all[i] == (a + b)[i];
    assert forall j: nat :: j < |b| ==> b[j] == all[|a| + 1 + j] == (a + b)[|a| + j];
    forall i: nat, j: nat | i < j < |a + b|
      ensures (a + b)[i] != (a + b)[j]
    {
      assert all[if i < |a| then i else i + 1] != all[if j < |a| then j else j + 1];
    }
  }

  /** Taking a hook out leaves the others. */
  lemma TakenOut(q: seq<Hook>, h: Hook, k: nat)
    requires NoRepeats(q) && k < |q| && q[k] == h
    ensures Without(q, h) == q[..k] + q[k + 1..] && NoRepeats(Without(q, h))
    ensures h !in Without(q, h) && Within(Without(q, h), q)
  {
    hide NoRepeats, Without;
    var a, b := q[..k], q[k + 1..];
    assert q == a + [h] + b;
    WithoutAt(q, h, k);
    SplitOut(a, h, b);
  }

  lemma OtherStays(q: seq<Hook>, h: Hook, x: Hook?)
    requires h in q && x != h
    ensures x in Without(q, h) <==> x in q
  {
    hide Without;
    WithoutOne(q, h);
    if x != null {
      var y: Hook := x;
      assert y in multiset(q) <==> y in multiset(Without(q, h));
    }
  }

  /** The end of a sequence has nothing in common with its beginning. */
  lemma TailApart(kept: seq<Hook>, taken: seq<Hook>)
    requires NoRepeats(kept + taken)
    ensures NoRepeats(kept) && Apart(kept, taken) && Within(kept, kept + taken) && Within(taken, kept + taken)
  {
    DistinctConcat(kept, taken);
  }

  /** Takes hooks from the end of a queue, or all of them. */
  method TakeTail(queue: TSQueue, n: nat, everything: bool) returns (taken: SList)
    requires queue.Valid()
    modifies queue, queue.head`next, queue.nodes`prev, queue.nodes`next
    ensures fresh(taken) && taken.Valid() && taken.count == |taken.nodes| && queue.Valid()
    ensures queue.nodes + taken.nodes == old(queue.nodes)
    ensures Within(queue.nodes, old(queue.nodes)) && Within(taken.nodes, old(queue.nodes))
    ensures forall i: nat :: i < |taken.nodes| ==> taken.nodes[i] != queue.head && taken.nodes[i] !in queue.nodes
    ensures |taken.nodes| == if everything then |old(queue.nodes)| else Taken(n, |old(queue.nodes)|)
  {
    hide NoRepeats, Linked, Chain, Taken;
    queue.NodesDistinct();
    if everything {
      taken := queue.PopAll();
      assert [] + taken.nodes == taken.nodes;
    } else {
      taken := queue.PopBack(n);
    }
    TailApart(queue.nodes, taken.nodes);
  }

  class Processor {
    const runQueue: TSQueue
    const newQueue: TSQueue
    var running: Hook?
    var next: Hook?

    constructor ()
      ensures Valid() && fresh(runQueue) && fresh(newQueue)
    {
      runQueue := new TSQueue();
      newQueue := new TSQueue();
      running, next := null, null;
    }

    /** A held task is marked as the run queue's exactly while it is linked there. */
    ghost predicate HeldRight(h: Hook?)
      reads this, runQueue, h
    {
      h != null ==> h != runQueue.head && (h.check == runQueue <==> h in runQueue.nodes)
    }

    ghost predicate RunValid()
      reads this, runQueue, runQueue.head`prev, runQueue.head`next, runQueue.nodes`prev, runQueue.nodes`next
      reads running, next
    {
      && runQueue.Valid() && HeldRight(running) && HeldRight(next) && (running != null ==> running != next)
    }

    /** The hook is not the run queue's, and not held. */
    ghost predicate Outside(h: Hook)
      reads this, runQueue
    {
      h != runQueue.head && h !in runQueue.nodes && h != running && h != next
    }

    ghost predicate Clear(hooks: seq<Hook>)
      reads this, runQueue
    {
      forall i: nat :: i < |hooks| ==> Outside(hooks[i])
    }

    /** The two queues have nothing in common, and the held tasks are not in the new one. */
    ghost predicate Valid()
      reads this, runQueue, runQueue.head`prev, runQueue.head`next, runQueue.nodes`prev, runQueue.nodes`next
      reads newQueue, newQueue.head`prev, newQueue.head`next, newQueue.nodes`prev, newQueue.nodes`next
      reads running, next
    {
      && RunValid() && newQueue.Valid() && runQueue != newQueue
      && Outside(newQueue.head) && Clear(newQueue.nodes)
    }

    /** The task, if it is linked in the run queue. */
    ghost function Held(h: Hook?): Option<Hook>
      reads this, runQueue, h
    {
      if h != null && h.check == runQueue then Some1(h) else None
    }

    /** The tasks of the run queue that may be stolen, and those that may not. */
    ghost function Spare(): seq<Hook>
      reads this, runQueue, running, next
    {
      Others(Others(runQueue.nodes, Held(running)), Held(next))
    }

    ghost function HeldTasks(): seq<Hook>
      reads this, runQueue, running, next
    {
      One(Held(running)) + One(Held(next))
    }

    ghost function View(): Queues<Hook>
      reads this, runQueue, newQueue
    {
      Queues(runQueue.nodes, newQueue.nodes)
    }

    ghost predicate Free(h: Hook?)
      reads runQueue, h
    {
      h != null && h.prev == null && h.next == null && h != runQueue.head && h !in runQueue.nodes
    }

    /** Unlinks a held task from the run queue, if it is there. */
    method SetAside(held: Hook?, ghost other: Hook?) returns (aside: bool)
      requires runQueue.Valid() && HeldRight(held)
      modifies runQueue, runQueue.head`next, runQueue.nodes`prev, runQueue.nodes`next, held
      ensures runQueue.Valid()
      ensures aside == (old(Held(held)) != None)
      ensures runQueue.nodes == Others(old(runQueue.nodes), old(Held(held)))
      ensures Within(runQueue.nodes, old(runQueue.nodes)) && (aside ==> held in old(runQueue.nodes))
      ensures held !in runQueue.nodes
      ensures other != held ==> (other in runQueue.nodes <==> other in old(runQueue.nodes))
      ensures aside ==> Free(held)
      ensures !aside && held != null ==> held.check == old(held.check)
    {
      hide NoRepeats, Linked, Chain, Without;
      aside := false;
      if held != null {
        ghost var k: nat := 0;
        if held.check == runQueue {
          k :| k < |runQueue.nodes| && runQueue.nodes[k] == held;
          runQueue.NodesDistinct();
          TakenOut(runQueue.nodes, held, k);
          if other != held {
            OtherStays(runQueue.nodes, held, other);
          }
        }
        aside := runQueue.Erase(held, true, k);
      }
    }

    /** Links a task that was set aside at the end of the run queue again. */
    method PutBack(held: Hook?, aside: bool)
      requires runQueue.Valid()
      requires aside ==> Free(held)
      modifies runQueue, runQueue.head`next, runQueue.nodes`next, held
      ensures runQueue.Valid() && runQueue.nodes == old(runQueue.nodes) + if aside then [held] else []
      ensures aside ==> held.check == runQueue
      ensures !aside && held != null ==> held.check == old(held.check)
    {
      if aside {
        var size := runQueue.Push(held);
      }
    }

    /** Unlinks the running task and the next one, if they are in the run queue. */
    method SetBothAside() returns (first: bool, second: bool)
      requires RunValid()
      modifies runQueue, runQueue.head`next, runQueue.nodes`prev, runQueue.nodes`next, running, next
      ensures runQueue.Valid() && running !in runQueue.nodes && next !in runQueue.nodes
      ensures first == (old(Held(running)) != None) && second == (old(Held(next)) != None)
      ensures runQueue.nodes == old(Spare()) && Within(runQueue.nodes, old(runQueue.nodes))
      ensures first ==> Free(running) && running in old(runQueue.nodes)
      ensures second ==> Free(next) && next in old(runQueue.nodes)
      ensures !first && running != null ==> running.check == old(running.check)
      ensures !second && next != null ==> next.check == old(next.check)
    {
      hide NoRepeats, Linked, Chain, Without, Others, TSQueue.Valid;
      first := SetAside(running, next);
      second := SetAside(next, running);
    }

    /** Links both again, behind the tasks that are left. */
    method PutBothBack(first: bool, second: bool, ghost taken: SList)
      requires taken.Valid() && Clear(taken.nodes)
      requires runQueue.Valid() && (first ==> Free(running)) && (second ==> Free(next))
      requires running != null ==> running != next
      modifies runQueue, runQueue.head`next, runQueue.nodes`next, running, next
      ensures runQueue.Valid() && taken.Valid() && Clear(taken.nodes)
      ensures runQueue.nodes == old(runQueue.nodes)
              + (if first then [running] else []) + (if second then [next] else [])
      ensures running != null ==> running.check == if first then runQueue else old(running.check)
      ensures next != null ==> next.check == if second then runQueue else old(next.check)
    {
      hide TSQueue.Valid;
      PutBack(running, first);
      PutBack(next, second);
    }

    /** Takes tasks from the end of the run queue while the running task and the next one are set aside. */
    method TakeSpare(n: nat, everything: bool) returns (taken: SList)
      requires RunValid()
      modifies runQueue, runQueue.head`next, runQueue.nodes`prev, runQueue.nodes`next, running, next
      ensures fresh(taken) && taken.Valid() && RunValid() && Clear(taken.nodes)
      ensures Held(running) == old(Held(running)) && Held(next) == old(Held(next))
      ensures Within(runQueue.nodes, old(runQueue.nodes)) && Within(taken.nodes, old(runQueue.nodes))
      ensures var spare := old(Spare());
              && |taken.nodes| == (if everything then |spare| else Taken(n, |spare|)) <= |spare|
              && taken.nodes == spare[|spare| - |taken.nodes|..]
              && runQueue.nodes == spare[..|spare| - |taken.nodes|] + old(HeldTasks())
    {
      hide NoRepeats, Linked, Chain, Others, Taken, TSQueue.Valid, SList.Valid;
      var first, second := SetBothAside();
      ghost var spare := runQueue.nodes;
      taken := TakeTail(runQueue, n, everything);
      ghost var kept := runQueue.nodes;
      assert kept == spare[..|kept|] && taken.nodes == spare[|kept|..];
      PutBothBack(first, second, taken);
    }

    /** The spare tasks and the held ones are the run queue. */
    lemma Parted()
      requires RunValid()
      ensures multiset(Spare()) + multiset(HeldTasks()) == multiset(runQueue.nodes)
    {
      OthersParted(runQueue.nodes, Held(running), Held(next));
    }

    /** None of these hooks is the new queue's. */
    ghost predicate NewClear(hooks: seq<Hook>)
      reads newQueue
    {
      forall i: nat :: i < |hooks| ==> hooks[i] != newQueue.head && hooks[i] !in newQueue.nodes
    }

    /** Takes tasks from the end of the new queue. */
    method TakeNew(n: nat, everything: bool) returns (taken: SList)
      requires Valid()
      modifies newQueue, newQueue.head`next, newQueue.nodes`prev, newQueue.nodes`next
      ensures fresh(taken) && taken.Valid() && Valid() && Clear(taken.nodes) && NewClear(taken.nodes)
      ensures Within(taken.nodes, old(newQueue.nodes))
      ensures newQueue.nodes + taken.nodes == old(newQueue.nodes) && taken.count == |taken.nodes|
      ensures runQueue.nodes == old(runQueue.nodes)
      ensures Held(running) == old(Held(running)) && Held(next) == old(Held(next))
      ensures Spare() == old(Spare()) && HeldTasks() == old(HeldTasks())
      ensures |taken.nodes| == (if everything then |old(newQueue.nodes)| else Taken(n, |old(newQueue.nodes)|))
    {
      hide NoRepeats, Linked, Chain, Taken, TSQueue.Valid, SList.Valid, RunValid;
      taken := TakeTail(newQueue, n, everything);
    }

    /** Takes tasks from the run queue while a list from the new queue is held. */
    method TakeRun(n: nat, everything: bool, list: SList) returns (taken: SList)
      requires Valid() && list.Valid() && Clear(list.nodes) && NewClear(list.nodes)
      modifies runQueue, runQueue.head`next, runQueue.nodes`prev, runQueue.nodes`next, running, next
      ensures fresh(taken) && taken.Valid() && list.Valid() && Valid()
      ensures Clear(list.nodes) && Clear(taken.nodes) && NewClear(taken.nodes) && Apart(taken.nodes, list.nodes)
      ensures Held(running) == old(Held(running)) && Held(next) == old(Held(next))
      ensures Within(taken.nodes, old(runQueue.nodes))
      ensures var spare := old(Spare());
              && |taken.nodes| == (if everything then |spare| else Taken(n, |spare|)) <= |spare|
              && taken.nodes == spare[|spare| - |taken.nodes|..]
              && runQueue.nodes == spare[..|spare| - |taken.nodes|] + old(HeldTasks())
    {
      hide NoRepeats, Linked, Chain, Taken, Others, TSQueue.Valid, SList.Valid;
      taken := TakeSpare(n, everything);
    }

    /** Puts the tasks of the run queue before those of the new one. */
    method Join(more: SList, list: SList)
      requires Valid() && more.Valid() && list.Valid() && more != list && Apart(more.nodes, list.nodes)
      requires Clear(more.nodes) && NewClear(more.nodes) && Clear(list.nodes) && NewClear(list.nodes)
      modifies more, list, more.nodes`next, list.nodes`prev
      ensures Valid() && more.Valid() && more.nodes == old(more.nodes) + old(list.nodes)
    {
      hide NoRepeats, Linked, Chain, TSQueue.Valid, SList.Valid;
      more.Append(list);
    }

    /** Takes tasks from the run queue, and puts those of the list behind them. */
    method TakeBefore(n: nat, everything: bool, list: SList) returns (stolen: SList, ghost more: seq<Hook>)
      requires Valid() && list.Valid() && Clear(list.nodes) && NewClear(list.nodes)
      modifies runQueue, runQueue.head`next, runQueue.nodes`prev, runQueue.nodes`next, running, next
      modifies list, list.nodes`prev
      ensures fresh(stolen) && stolen.Valid() && Valid() && stolen.nodes == more + old(list.nodes)
      ensures Held(running) == old(Held(running)) && Held(next) == old(Held(next))
      ensures newQueue.nodes == old(newQueue.nodes)
      ensures var spare := old(Spare());
              && |more| == (if everything then |spare| else Taken(n, |spare|)) <= |spare|
              && more == spare[|spare| - |more|..]
              && runQueue.nodes == spare[..|spare| - |more|] + old(HeldTasks())
    {
      hide NoRepeats, Linked, Chain, Taken, Others, RunValid, Clear, NewClear, TSQueue.Valid, SList.Valid;
      stolen := TakeRun(n, everything, list);
      more := stolen.nodes;
      Join(stolen, list);
    }

    /**
     * Steals tasks for other processors: first from the end of the new queue, then from the end of
     * the run queue; all there are if n is zero. The running task and the next one stay.
     */
    method Steal(n: nat) returns (stolen: SList)
      requires Valid()
      modifies runQueue, runQueue.head`next, runQueue.nodes`prev, runQueue.nodes`next
      modifies newQueue, newQueue.head`next, newQueue.nodes`prev, newQueue.nodes`next
      modifies running, next
      ensures Valid() && fresh(stolen) && stolen.Valid()
      ensures Held(running) == old(Held(running)) && Held(next) == old(Held(next))
      ensures Divides(n, old(Spare()), old(HeldTasks()), old(View()), View(), stolen.nodes)
      ensures Tasks(View()) + multiset(stolen.nodes) == old(Tasks(View()))
    {
      Parted();
      hide NoRepeats, Linked, Chain, Taken, Others, Divides, Tasks, RunValid, Clear, NewClear;
      hide TSQueue.Valid, SList.Valid, Spare, HeldTasks, Held, Processor.Valid;
      ghost var before, spare, held := View(), Spare(), HeldTasks();
      var list := TakeNew(n % UINT32, n == 0);
      ghost var fromNew := list.nodes;
      if n > 0 && list.count >= n {
        Divided(n, spare, held, before, View(), fromNew, []);
        return list;
      }
      ghost var more: seq<Hook>;
      stolen, more := TakeBefore(if n > 0 then (n - list.count) % UINT32 else 0, n == 0, list);
      Divided(n, spare, held, before, View(), fromNew, more);
    }

    /** Stolen tasks arrive at the end of the new queue. */
    method AddTask(tasks: SList)
      requires Valid() && tasks.Valid() && Clear(tasks.nodes) && NewClear(tasks.nodes)
      modifies newQueue, newQueue.tail`next, tasks, tasks.nodes`prev
      ensures Valid() && newQueue.nodes == old(newQueue.nodes) + old(tasks.nodes)
      ensures tasks.Valid() && tasks.nodes == []
    {
      hide NoRepeats, Linked, Chain, SList.Valid, RunValid;
      newQueue.PushList(tasks);
    }
  }

  ghost function Some1(h: Hook?): Option<Hook> {
    if h == null then None else var x: Hook := h; Some(x)
  }
}

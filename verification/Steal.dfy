/// Stealing tasks from a processor, and handing stolen tasks out again. A queue
/// is the sequence of its tasks; `TsQueues` shows that the linked queues behave so.
module Stealing {
  import opened Options
  import opened Sequences
  import TsQueues

  const UINT32 := 0x1_0000_0000

  datatype Queues<T> = Queues(runQueue: seq<T>, newQueue: seq<T>)

  function Tasks<T>(q: Queues<T>): multiset<T> {
    multiset(q.runQueue) + multiset(q.newQueue)
  }

  function One<T>(held: Option<T>): seq<T> {
    match held
    case None => []
    case Some(t) => [t]
  }

  function Others<T(==)>(q: seq<T>, held: Option<T>): seq<T> {
    match held
    case None => q
    case Some(t) => Without(q, t)
  }

  /** How a steal divides the queues, where `held` are the run queue's tasks that must stay and `spare` the others. */
  ghost predicate Divides<T>(n: nat, spare: seq<T>, held: seq<T>, before: Queues<T>, after: Queues<T>, stolen: seq<T>) {
    var c := |before.newQueue| - |after.newQueue|;
    var r := |stolen| - c;
    && 0 <= c && 0 <= r <= |spare|
    && after.newQueue + stolen[r..] == before.newQueue
    && c == (if n == 0 then |before.newQueue| else TsQueues.Taken(n % UINT32, |before.newQueue|))
    && if 0 < n <= c then r == 0 && after.runQueue == before.runQueue
       else
         && after.runQueue == spare[..|spare| - r] + held && stolen[..r] == spare[|spare| - r..]
         && r == (if n == 0 then |spare| else TsQueues.Taken((n - c) % UINT32, |spare|))
  }

  lemma OthersParted<T>(q: seq<T>, a: Option<T>, b: Option<T>)
    requires (a.Some? ==> a.value in q && a != b) && (b.Some? ==> b.value in q)
    ensures multiset(Others(Others(q, a), b)) + multiset(One(a) + One(b)) == multiset(q)
  {
    hide Without;
    var first := Others(q, a);
    if a.Some? {
      WithoutOne(q, a.value);
    }
    if b.Some? {
      assert b.value in multiset(q) && b.value in multiset(first);
      WithoutOne(first, b.value);
    }
  }

  lemma InOne(a: Option<nat>)
    ensures a.Some? ==> a.value in One(a)
  {
  }

  /** A held task is marked exactly while the run queue has it, and is nowhere else among `all`. */
  ghost predicate Right(marked: set<nat>, held: Option<nat>, q: Queues<nat>, all: multiset<nat>) {
    held.Some? ==>
      && (held.value in marked <==> held.value in q.runQueue)
      && all[held.value] == if held.value in q.runQueue then 1 else 0
  }

  /** However a steal divides the queues, no task is lost and none is doubled, and the held ones stay. */
  lemma Conserves<T>(n: nat, spare: seq<T>, held: seq<T>, before: Queues<T>, after: Queues<T>, stolen: seq<T>)
    requires Divides(n, spare, held, before, after, stolen)
    requires multiset(spare) + multiset(held) == multiset(before.runQueue)
    ensures Tasks(after) + multiset(stolen) == Tasks(before)
    ensures forall i: nat :: i < |held| ==> held[i] in after.runQueue
  {
    hide TsQueues.Taken;
    var r := |stolen| - (|before.newQueue| - |after.newQueue|);
    assert before.newQueue == after.newQueue + stolen[r..];
    if after.runQueue == before.runQueue && r == 0 {
      assert stolen[0..] == stolen;
    } else {
      Rejoined(spare, held, stolen, r);
      assert after.runQueue == spare[..|spare| - r] + held;
      assert Tasks(after) + multiset(stolen)
          == (multiset(after.runQueue) + multiset(stolen)) + multiset(after.newQueue);
    }
    forall i: nat | i < |held|
      ensures held[i] in after.runQueue
    {
      assert held[i] in multiset(held) && held[i] in multiset(before.runQueue);
    }
  }

  lemma Rejoined<T>(spare: seq<T>, held: seq<T>, stolen: seq<T>, r: nat)
    requires r <= |spare| && r <= |stolen| && stolen[..r] == spare[|spare| - r..]
    ensures multiset(spare[..|spare| - r] + held) + multiset(stolen)
         == multiset(spare) + multiset(held) + multiset(stolen[r..])
  {
    assert stolen == stolen[..r] + stolen[r..];
    assert spare == spare[..|spare| - r] + spare[|spare| - r..];
  }

  /** It gives as many as were asked for, if there are so many, and at least one if there is any; a steal
      of everything gives all that may be stolen. */
  lemma AsMany<T>(n: nat, spare: seq<T>, held: seq<T>, before: Queues<T>, after: Queues<T>, stolen: seq<T>)
    requires Divides(n, spare, held, before, after, stolen)
    ensures var all := |before.newQueue| + |spare|;
            && (n == 0 ==> |stolen| == all)
            && (0 < n < UINT32 ==> |stolen| == if all < n then all else n)
            && (all > 0 ==> stolen != [])
  {
    var c := |before.newQueue| - |after.newQueue|;
    CountTaken(n, |before.newQueue|, |spare|, c, |stolen| - c);
  }

  lemma CountTaken(n: nat, a: nat, b: nat, c: nat, r: nat)
    requires c == if n == 0 then a else TsQueues.Taken(n % UINT32, a)
    requires if 0 < n <= c then r == 0 else r == if n == 0 then b else TsQueues.Taken((n - c) % UINT32, b)
    ensures n == 0 ==> c + r == a + b
    ensures 0 < n < UINT32 ==> c + r == if a + b < n then a + b else n
    ensures a + b > 0 ==> c + r > 0
  {
    if 0 < n < UINT32 {
      assert n % UINT32 == n;
      assert n > c ==> (n - c) % UINT32 == n - c;
    }
  }

  /** What moves, in terms of the queues: the end of the new queue; and, if that is not enough, the end of the
      run queue without the held tasks, which are last in it afterwards. All of a queue, if everything is
      stolen; else as many as were asked for, and from the run queue only what the new one lacks. */
  lemma Moves<T>(n: nat, spare: seq<T>, held: seq<T>, before: Queues<T>, after: Queues<T>, stolen: seq<T>)
    requires Divides(n, spare, held, before, after, stolen)
    ensures after.newQueue <= before.newQueue
    ensures n == 0 ==> after == Queues(held, []) && stolen == spare + before.newQueue
    ensures 0 < n <= |before.newQueue| && n < UINT32 ==>
      after.runQueue == before.runQueue && stolen == before.newQueue[|before.newQueue| - n..]
    ensures |before.newQueue| < n < UINT32 ==>
      var more := n - |before.newQueue|;
      && after.newQueue == []
      && (|spare| <= more ==> after.runQueue == held && stolen == spare + before.newQueue)
      && (|spare| > more ==>
            && after.runQueue == spare[..|spare| - more] + held
            && stolen == spare[|spare| - more..] + before.newQueue)
  {
    hide TsQueues.Taken;
    var c := |before.newQueue| - |after.newQueue|;
    var r := |stolen| - c;
    CountEach(n, |before.newQueue|, |spare|, c, r);
    assert stolen == stolen[..r] + stolen[r..] && stolen[r..] == before.newQueue[|after.newQueue|..];
    assert [] + held == held && [] + stolen[r..] == stolen[r..];
  }

  lemma CountEach(n: nat, a: nat, b: nat, c: nat, r: nat)
    requires c == if n == 0 then a else TsQueues.Taken(n % UINT32, a)
    requires if 0 < n <= c then r == 0 else r == if n == 0 then b else TsQueues.Taken((n - c) % UINT32, b)
    ensures n == 0 ==> c == a && r == b
    ensures 0 < n < UINT32 && n <= a ==> c == n && r == 0
    ensures 0 < n < UINT32 && n > a ==> c == a && r == if b < n - a then b else n - a
  {
    if 0 < n < UINT32 {
      assert n % UINT32 == n;
      assert n > c ==> (n - c) % UINT32 == n - c;
    }
  }

  /** What was taken from each queue makes up the division, and nothing is lost. */
  lemma Divided<T>(n: nat, spare: seq<T>, held: seq<T>, before: Queues<T>, after: Queues<T>,
                   fromNew: seq<T>, more: seq<T>)
    requires multiset(spare) + multiset(held) == multiset(before.runQueue)
    requires after.newQueue + fromNew == before.newQueue
    requires |fromNew| == if n == 0 then |before.newQueue| else TsQueues.Taken(n % UINT32, |before.newQueue|)
    requires
      if 0 < n <= |fromNew| then more == [] && after.runQueue == before.runQueue
      else
        && |more| == (if n == 0 then |spare| else TsQueues.Taken((n - |fromNew|) % UINT32, |spare|)) <= |spare|
        && more == spare[|spare| - |more|..] && after.runQueue == spare[..|spare| - |more|] + held
    ensures Divides(n, spare, held, before, after, more + fromNew)
    ensures Tasks(after) + multiset(more + fromNew) == Tasks(before)
  {
    hide Tasks, TsQueues.Taken;
    var stolen := more + fromNew;
    assert stolen[..|more|] == more && stolen[|more|..] == fromNew;
    Conserves(n, spare, held, before, after, stolen);
  }

  /** A steal of some tasks gives at most as many as were asked for. */
  lemma AtMost<T>(n: nat, spare: seq<T>, held: seq<T>, before: Queues<T>, after: Queues<T>, stolen: seq<T>)
    requires n > 0 && Divides(n, spare, held, before, after, stolen)
    ensures |stolen| <= n
  {
    assert forall k: nat :: k > 0 ==> k % UINT32 <= k;
  }

  /** The held task stays right, and is not among the stolen ones. */
  lemma RightAfter(marked: set<nat>, held: Option<nat>, before: Queues<nat>, after: Queues<nat>, stolen: seq<nat>)
    requires Right(marked, held, before, Tasks(before)) && Tasks(after) + multiset(stolen) == Tasks(before)
    requires held.Some? && held.value in marked ==> held.value in after.runQueue
    ensures Right(marked, held, after, Tasks(after)) && (held.Some? ==> held.value !in stolen)
  {
    if held.Some? {
      var t := held.value;
      assert Tasks(after)[t] + multiset(stolen)[t] == Tasks(before)[t];
      assert t in after.runQueue ==> t in multiset(after.runQueue);
      assert t in stolen ==> t in multiset(stolen);
    }
  }

  class Processor {
    var runQueue: seq<nat>
    var newQueue: seq<nat>
    var running: Option<nat>
    var next: Option<nat>

    /** The tasks marked as linked in the run queue. */
    var marked: set<nat>

    constructor ()
      ensures Valid() && runQueue == newQueue == []
    {
      runQueue, newQueue, running, next, marked := [], [], None, None, {};
    }

    function View(): Queues<nat>
      reads this
    {
      Queues(runQueue, newQueue)
    }

    /** The held tasks are linked at most here, among all the tasks there are. */
    ghost predicate Settled(all: multiset<nat>)
      reads this
    {
      && Right(marked, running, View(), all) && Right(marked, next, View(), all)
      && (running.Some? ==> running != next)
    }

    ghost predicate Valid()
      reads this
    {
      Settled(Tasks(View()))
    }

    function Linked(held: Option<nat>): Option<nat>
      reads this`marked
    {
      if held.Some? && held.value in marked then held else None
    }

    /** The run queue's tasks that may be stolen, and those that may not. */
    function Spare(): seq<nat>
      reads this`runQueue, this`marked, this`running, this`next
    {
      Others(Others(runQueue, Linked(running)), Linked(next))
    }

    function HeldTasks(): seq<nat>
      reads this`marked, this`running, this`next
    {
      One(Linked(running)) + One(Linked(next))
    }

    method PopNew(n: nat) returns (taken: seq<nat>)
      modifies this`newQueue
      ensures newQueue + taken == old(newQueue) && |taken| == TsQueues.Taken(n, |old(newQueue)|)
    {
      var k := |newQueue| - TsQueues.Taken(n, |newQueue|);
      taken, newQueue := newQueue[k..], newQueue[..k];
    }

    method PopRun(n: nat) returns (taken: seq<nat>)
      modifies this`runQueue
      ensures runQueue + taken == old(runQueue) && |taken| == TsQueues.Taken(n, |old(runQueue)|)
    {
      var k := |runQueue| - TsQueues.Taken(n, |runQueue|);
      taken, runQueue := runQueue[k..], runQueue[..k];
    }

    method SetAside(held: Option<nat>) returns (aside: bool)
      modifies this`runQueue, this`marked
      ensures aside == (old(Linked(held)) != None)
      ensures runQueue == Others(old(runQueue), old(Linked(held)))
      ensures marked == if aside then old(marked) - {held.value} else old(marked)
    {
      aside := held.Some? && held.value in marked;
      if aside {
        runQueue, marked := Without(runQueue, held.value), marked - {held.value};
      }
    }

    method PutBack(held: Option<nat>, aside: bool)
      requires aside ==> held.Some?
      modifies this`runQueue, this`marked
      ensures runQueue == old(runQueue) + if aside then [held.value] else []
      ensures marked == if aside then old(marked) + {held.value} else old(marked)
    {
      if aside {
        runQueue, marked := runQueue + [held.value], marked + {held.value};
      }
    }

    /** Takes tasks from the end of the run queue while the running task and the next one are set aside. */
    method TakeSpare(n: nat, everything: bool) returns (taken: seq<nat>)
      requires running.Some? ==> running != next
      modifies this`runQueue, this`marked
      ensures marked == old(marked)
      ensures var spare := old(Spare());
              && |taken| == (if everything then |spare| else TsQueues.Taken(n, |spare|)) <= |spare|
              && taken == spare[|spare| - |taken|..] && runQueue == spare[..|spare| - |taken|] + old(HeldTasks())
    {
      var a := SetAside(running);
      var b := SetAside(next);
      ghost var spare := runQueue;
      if everything {
        taken, runQueue := runQueue, [];
      } else {
        taken := PopRun(n);
      }
      assert runQueue == spare[..|spare| - |taken|];
      PutBack(running, a);
      PutBack(next, b);
    }

    /** The spare tasks and the held ones are the run queue. */
    lemma Parted()
      requires Valid()
      ensures multiset(Spare()) + multiset(HeldTasks()) == multiset(runQueue)
      ensures Linked(running).Some? ==> running.value in HeldTasks()
      ensures Linked(next).Some? ==> next.value in HeldTasks()
    {
      hide Others, One, Tasks;
      OthersParted(runQueue, Linked(running), Linked(next));
      InOne(Linked(running));
      InOne(Linked(next));
    }

    /**
     * Steals tasks for other processors: first from the end of the new queue, then from the end of
     * the run queue; all there are if n is zero. The running task and the next one stay.
     */
    method Steal(n: nat) returns (stolen: seq<nat>)
      requires Valid()
      modifies this`runQueue, this`newQueue, this`marked
      ensures Valid() && marked == old(marked) && HeldTasks() == old(HeldTasks())
      ensures Divides(n, old(Spare()), old(HeldTasks()), old(View()), View(), stolen)
      ensures Tasks(View()) + multiset(stolen) == Tasks(old(View()))
    {
      hide Spare, HeldTasks, Others, Tasks, Right, Divides, TsQueues.Taken;
      ghost var before, spare, held := View(), Spare(), HeldTasks();
      Parted();
      var more := [];
      if n > 0 {
        stolen := PopNew(n % UINT32);
        if |stolen| < n {
          more := TakeSpare((n - |stolen|) % UINT32, false);
        }
      } else {
        stolen, newQueue := newQueue, [];
        more := TakeSpare(0, true);
      }
      Divided(n, spare, held, before, View(), stolen, more);
      stolen := more + stolen;
      Conserves(n, spare, held, before, View(), stolen);
      RightAfter(marked, running, before, View(), stolen);
      RightAfter(marked, next, before, View(), stolen);
    }

    /** Stolen tasks arrive at the end of the new queue. */
    method AddTask(tasks: seq<nat>)
      modifies this`newQueue
      ensures newQueue == old(newQueue) + tasks
    {
      newQueue := newQueue + tasks;
    }

    function RunnableSize(): nat
      reads this
    {
      |runQueue| + |newQueue|
    }
  }
}

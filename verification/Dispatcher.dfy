/// The dispatcher's rebalancing: tasks of blocked processors are stolen and dealt
/// to the least loaded ones, and idle processors get tasks of the busiest one.
module Dispatching {
  import Base256
  import opened Options
  import opened Sequences
  import opened Stealing

  /** A processor and the load it was entered with, in a map ordered by load. */
  datatype Active = Active(load: nat, proc: nat)

  predicate Sorted(m: seq<Active>) {
    forall i: nat, j: nat :: i < j < |m| ==> m[i].load <= m[j].load
  }

  /** How many entries have no more than a load. */
  function UpperBound(m: seq<Active>, load: nat): (k: nat)
    requires Sorted(m)
    ensures k <= |m|
    ensures forall i: nat :: i < |m| ==> (m[i].load <= load <==> i < k)
  {
    if m == [] then 0 else if m[|m| - 1].load <= load then |m| else UpperBound(m[..|m| - 1], load)
  }

  /** Inserts after the entries of the same load. */
  function Insert(m: seq<Active>, e: Active): (r: seq<Active>)
    requires Sorted(m)
    ensures Sorted(r)
    ensures forall x: Active :: x in r <==> x in m || x == e
    ensures multiset(r) == multiset(m) + multiset{e}
  {
    var k := UpperBound(m, e.load);
    assert m == m[..k] + m[k..];
    m[..k] + [e] + m[k..]
  }

  method InsertAll(m: seq<Active>, list: seq<Active>) returns (r: seq<Active>)
    requires Sorted(m)
    ensures Sorted(r) && forall x: Active :: x in r <==> x in m || x in list
  {
    hide Sorted, Insert;
    r := m;
    for k := 0 to |list|
      invariant Sorted(r) && forall x: Active :: x in r <==> x in m || x in list[..k]
    {
      assert list[..k + 1] == list[..k] + [list[k]];
      r := Insert(r, list[k]);
    }
    assert list[..|list|] == list;
  }

  /** How many entries share the least load. */
  function Least(m: seq<Active>): (g: nat)
    requires Sorted(m) && m != []
    ensures 0 < g <= |m| && forall i: nat :: i < |m| ==> (m[i].load == m[0].load <==> i < g)
  {
    UpperBound(m, m[0].load)
  }

  lemma SortedRest(m: seq<Active>, g: nat)
    requires Sorted(m) && g <= |m|
    ensures Sorted(m[g..])
  {
  }

  function Procs(m: seq<Active>): (group: seq<nat>)
    ensures |group| == |m| && forall k: nat :: k < |m| ==> group[k] == m[k].proc
  {
    seq(|m|, k requires 0 <= k < |m| => m[k].proc)
  }

  // ------------------------------------------------------------ all the tasks there are

  function AllTasks(views: seq<Queues<nat>>): multiset<nat> {
    if views == [] then multiset{} else Tasks(views[0]) + AllTasks(views[1..])
  }

  lemma {:induction false} AllTasksUpdate(views: seq<Queues<nat>>, i: nat, v: Queues<nat>)
    requires i < |views|
    ensures AllTasks(views[i := v]) + Tasks(views[i]) == AllTasks(views) + Tasks(v)
  {
    hide Tasks;
    var rest := views[1..];
    if i > 0 {
      AllTasksUpdate(rest, i - 1, v);
      assert views[i := v][1..] == rest[i - 1 := v];
      Swap(Tasks(views[0]), AllTasks(rest[i - 1 := v]), Tasks(views[i]), AllTasks(rest), Tasks(v));
    } else {
      assert views[i := v][1..] == rest;
    }
  }

  lemma Swap(a: multiset<nat>, b: multiset<nat>, c: multiset<nat>, d: multiset<nat>, e: multiset<nat>)
    requires b + c == d + e
    ensures a + b + c == a + d + e
  {
    assert a + b + c == a + (b + c);
    assert a + d + e == a + (d + e);
  }

  lemma Cancel(a: multiset<nat>, t: multiset<nat>, b: multiset<nat>, u: multiset<nat>, s: multiset<nat>)
    requires a + t == b + u && u + s == t
    ensures a + s == b
  {
    forall x: nat
      ensures (a + s)[x] == b[x]
    {
      assert (a + t)[x] == (b + u)[x] && (u + s)[x] == t[x];
    }
  }

  lemma Part(views: seq<Queues<nat>>, i: nat)
    requires i < |views|
    ensures Tasks(views[i]) <= AllTasks(views)
  {
    var none := Queues([], []);
    AllTasksUpdate(views, i, none);
    assert Tasks(none) + Tasks(views[i]) == Tasks(views[i]);
    Cancel(AllTasks(views[i := none]), Tasks(views[i]), AllTasks(views), Tasks(none), Tasks(views[i]));
  }

  /** Tasks that leave one processor leave the whole. */
  lemma TakenAway(views: seq<Queues<nat>>, i: nat, v: Queues<nat>, tasks: multiset<nat>)
    requires i < |views| && Tasks(v) + tasks == Tasks(views[i])
    ensures AllTasks(views[i := v]) + tasks == AllTasks(views)
  {
    hide Tasks;
    AllTasksUpdate(views, i, v);
    Cancel(AllTasks(views[i := v]), Tasks(views[i]), AllTasks(views), Tasks(v), tasks);
  }

  lemma Sum(a: multiset<nat>, b: multiset<nat>, c: multiset<nat>)
    ensures a + (b + c) == (a + c) + b
  {
  }

  /** A held task that is right among all tasks is right in its processor. */
  lemma RightHere(marked: set<nat>, held: Option<nat>, views: seq<Queues<nat>>, i: nat, all: multiset<nat>)
    requires i < |views| && AllTasks(views) <= all && Right(marked, held, views[i], all)
    ensures Right(marked, held, views[i], Tasks(views[i]))
  {
    Part(views, i);
    if held.Some? {
      assert held.value in views[i].runQueue ==> held.value in multiset(views[i].runQueue);
    }
  }

  lemma TaskCount(before: Queues<nat>, after: Queues<nat>, stolen: seq<nat>)
    requires Tasks(after) + multiset(stolen) == Tasks(before)
    ensures |stolen| + |after.runQueue| + |after.newQueue| == |before.runQueue| + |before.newQueue|
  {
    assert |Tasks(after) + multiset(stolen)| == |Tasks(before)|;
  }

  /** A steal that leaves the marks alone leaves a held task right among all tasks. */
  lemma RightStill(marked: set<nat>, held: Option<nat>, before: Queues<nat>, after: Queues<nat>, all: multiset<nat>)
    requires Right(marked, held, before, all) && Right(marked, held, after, Tasks(after))
    ensures Right(marked, held, after, all)
  {
  }

  function Plus(q: Queues<nat>, tasks: seq<nat>): Queues<nat> {
    q.(newQueue := q.newQueue + tasks)
  }

  /** Shares for the processors of a group, and what is left for the first. */
  datatype Hand = Hand(shares: seq<seq<nat>>, rest: seq<nat>)

  /** A processor with its load. */
  function Current(views: seq<Queues<nat>>, i: nat): Active
    requires i < |views|
  {
    Active(|views[i].runQueue| + |views[i].newQueue|, i)
  }

  predicate InRange(m: seq<Active>, size: nat) {
    m != [] && Sorted(m) && forall e: Active :: e in m ==> e.proc < size
  }

  /** The first g entries are entered with their new loads, the others as before. */
  ghost predicate Reentered(actives: seq<Active>, g: nat, views: seq<Queues<nat>>, m: seq<Active>)
    requires InRange(actives, |views|)
  {
    forall k: nat :: k < |actives| ==> (if k < g then Current(views, actives[k].proc) else actives[k]) in m
  }

  lemma AllEntered(actives: seq<Active>, g: nat, views: seq<Queues<nat>>, entries: seq<Active>, loads: seq<Active>,
                   m: seq<Active>)
    requires InRange(actives, |views|) && |entries| <= g == |loads| <= |actives| && 0 < g
    requires forall k: nat :: k < |entries| ==> entries[k].proc == actives[k].proc
    requires forall k: nat :: k < g ==> loads[k] == Current(views, actives[k].proc)
    requires forall x: Active :: x in m <==> x in actives[g..] || x in entries || x in loads
    ensures m != [] && Reentered(actives, g, views, m)
    ensures forall e: Active :: e in m ==> e.proc in Procs(actives) && e.proc < |views|
  {
    hide Sorted;
    assert forall k: nat :: g <= k < |actives| ==> actives[k] == actives[g..][k - g];
    assert loads[0] in m;
    forall e: Active | e in m
      ensures e.proc in Procs(actives) && e.proc < |views|
    {
      var k := Origin(actives, g, entries, loads, e);
      assert actives[k] in actives && Procs(actives)[k] == e.proc;
    }
  }

  lemma Origin(actives: seq<Active>, g: nat, entries: seq<Active>, loads: seq<Active>, e: Active) returns (k: nat)
    requires |entries| <= g == |loads| <= |actives|
    requires forall k: nat :: k < |entries| ==> entries[k].proc == actives[k].proc
    requires forall k: nat :: k < g ==> loads[k].proc == actives[k].proc
    requires e in actives[g..] || e in entries || e in loads
    ensures k < |actives| && actives[k].proc == e.proc
  {
    if e in entries {
      k :| k < |entries| && entries[k] == e;
    } else if e in loads {
      k :| k < |loads| && loads[k] == e;
    } else {
      k :| g <= k < |actives| && actives[k] == e;
    }
  }

  /** The freed tasks, if any, are dealt to the least loaded processors. */
  ghost predicate Moved(actives: seq<Active>, freed: seq<nat>, before: seq<Queues<nat>>, after: seq<Queues<nat>>,
                        hand: Hand, m: seq<Active>)
    requires InRange(actives, |before|)
  {
    if freed == [] then after == before && m == actives
    else
      var group := Procs(actives[..Least(actives)]);
      && DealtOut(freed, |group|, hand.shares, hand.rest)
      && after == DealtTo(before, group, hand.shares, hand.rest)
      && Reentered(actives, Least(actives), after, m)
  }

  /** How many tasks the busiest processor, the last entry, gives to the idle ones. */
  function Helping(m: seq<Active>, views: seq<Queues<nat>>): nat
    requires InRange(m, |views|)
  {
    var waiting, half := Least(m), Current(views, m[|m| - 1].proc).load / 2;
    if m[0].load != 0 || waiting == |m| then 0 else if half < waiting * 1024 then half else waiting * 1024
  }

  /** The busiest processor gives that many, which are dealt to the idle ones. */
  ghost predicate Fed(m: seq<Active>, holdings: seq<seq<nat>>, before: seq<Queues<nat>>, after: seq<Queues<nat>>,
                      stolen: seq<nat>, donor: Queues<nat>, hand: Hand)
  {
    && |holdings| == |before| && InRange(m, |before|)
    && if Helping(m, before) == 0 then after == before
       else
         var max, group := m[|m| - 1].proc, Procs(m[..Least(m)]);
         var spare := Rest(before[max].runQueue, holdings[max]);
         && Divides(Helping(m, before), spare, holdings[max], before[max], donor, stolen)
         && DealtOut(stolen, |group|, hand.shares, hand.rest)
         && after == DealtTo(before[max := donor], group, hand.shares, hand.rest)
  }

  /** What one processor gives to the idle ones, if there are any, but not all are idle, and it has at least
      two tasks: not more than half of its tasks, and not more than 1024 for each idle processor; but as
      many as that allows and its held tasks permit. It is the one entered with the greatest load. */
  ghost predicate Helps(m: seq<Active>, holdings: seq<seq<nat>>, before: seq<Queues<nat>>, after: seq<Queues<nat>>,
                        stolen: seq<nat>, donor: Queues<nat>, hand: Hand)
    requires InRange(m, |before|) && |holdings| == |before|
  {
    var idle, max := Least(m), m[|m| - 1].proc;
    var load := |before[max].runQueue| + |before[max].newQueue|;
    var free := |before[max].newQueue| + |Rest(before[max].runQueue, holdings[max])|;
    && (forall e: Active :: e in m ==> e.load <= m[|m| - 1].load)
    && if m[0].load != 0 || idle == |m| || load < 2 then after == before && stolen == []
       else
         && |stolen| + |donor.runQueue| + |donor.newQueue| == load
         && 2 * |stolen| <= load && |stolen| <= 1024 * idle && (free > 0 ==> stolen != [])
         && (1024 * |m| < UINT32 ==>
               |stolen| == free || 2 * (|stolen| + 1) > load || |stolen| + 1 > 1024 * idle)
         && DealtOut(stolen, idle, hand.shares, hand.rest)
         && after == DealtTo(before[max := donor], Procs(m[..idle]), hand.shares, hand.rest)
  }

  lemma FedHelps(m: seq<Active>, holdings: seq<seq<nat>>, before: seq<Queues<nat>>, after: seq<Queues<nat>>,
                 stolen: seq<nat>, donor: Queues<nat>, hand: Hand)
    requires Fed(m, holdings, before, after, stolen, donor, hand)
    requires if Helping(m, before) == 0 then stolen == []
             else |stolen| + |donor.runQueue| + |donor.newQueue| == Current(before, m[|m| - 1].proc).load
    ensures Helps(m, holdings, before, after, stolen, donor, hand)
  {
    hide Rest, Divides, DealtOut, DealtTo;
    if Helping(m, before) > 0 {
      var max, n := m[|m| - 1].proc, Helping(m, before);
      var spare := Rest(before[max].runQueue, holdings[max]);
      AtMost(n, spare, holdings[max], before[max], donor, stolen);
      AsMany(n, spare, holdings[max], before[max], donor, stolen);
    }
  }

  class Scheduler {
    const processers: seq<Processor>

    constructor (processers: seq<Processor>)
      ensures this.processers == processers
    {
      this.processers := processers;
    }

    ghost function Views(): (views: seq<Queues<nat>>)
      reads processers
      ensures |views| == |processers| && forall i: nat :: i < |views| ==> views[i] == processers[i].View()
    {
      seq(|processers|, i requires 0 <= i < |processers| reads processers => processers[i].View())
    }

    /** With `extra` on their way, no held task is linked anywhere but in its own run queue. */
    ghost predicate Fleet(extra: multiset<nat>)
      reads processers
    {
      NoRepeats(processers) && forall i: nat :: i < |processers| ==> processers[i].Settled(AllTasks(Views()) + extra)
    }

    method StealFrom(p: Processor, n: nat, ghost i: nat, ghost extra: multiset<nat>) returns (stolen: seq<nat>)
      requires i < |processers| && p == processers[i] && Fleet(extra)
      modifies p`runQueue, p`newQueue, p`marked
      ensures Fleet(extra + multiset(stolen)) && AllTasks(Views()) + multiset(stolen) == old(AllTasks(Views()))
      ensures p.marked == old(p.marked) && Views() == old(Views())[i := p.View()]
      ensures Holdings() == old(Holdings())
      ensures Divides(n, old(p.Spare()), old(p.HeldTasks()), old(p.View()), p.View(), stolen)
      ensures |stolen| + |p.runQueue| + |p.newQueue| == old(p.RunnableSize())
    {
      hide Tasks, AllTasks, Divides, Right, Others, Processor.Spare, Processor.HeldTasks;
      ghost var views, all := Views(), AllTasks(Views()) + extra;
      assert p.Settled(all);
      RightHere(p.marked, p.running, views, i, all);
      RightHere(p.marked, p.next, views, i, all);
      stolen := p.Steal(n);
      TaskCount(views[i], p.View(), stolen);
      RightStill(p.marked, p.running, views[i], p.View(), all);
      RightStill(p.marked, p.next, views[i], p.View(), all);
      assert Views() == views[i := p.View()];
      TakenAway(views, i, p.View(), multiset(stolen));
      Sum(AllTasks(Views()), extra, multiset(stolen));
      assert Holdings() == old(Holdings());
      assert AllTasks(Views()) + (extra + multiset(stolen)) == all;
    }

    method GiveTo(p: Processor, tasks: seq<nat>, ghost i: nat, ghost extra: multiset<nat>)
      requires i < |processers| && p == processers[i] && Fleet(extra + multiset(tasks))
      modifies p`newQueue
      ensures Fleet(extra) && AllTasks(Views()) == old(AllTasks(Views())) + multiset(tasks)
      ensures Views() == old(Views())[i := Plus(old(Views())[i], tasks)]
    {
      hide Tasks;
      ghost var views, all := Views(), AllTasks(Views()) + (extra + multiset(tasks));
      assert p.Settled(all);
      p.AddTask(tasks);
      ghost var now := Views();
      assert now == views[i := p.View()];
      PlusTasks(views[i], tasks);
      assert now[i := views[i]] == views;
      TakenAway(now, i, views[i], multiset(tasks));
      Sum(AllTasks(views), extra, multiset(tasks));
      assert AllTasks(now) + extra == all;
    }

    /** The tasks in the queues and those on their way. */
    ghost function InAll(way: seq<nat>): multiset<nat>
      reads processers
    {
      AllTasks(Views()) + multiset(way)
    }

    /** Deals equal shares, in order, until the group is through or no task is left. */
    method DealShares(tasks: seq<nat>, group: seq<nat>, ghost extra: multiset<nat>)
      returns (entries: seq<Active>, ghost shares: seq<seq<nat>>, left: seq<nat>)
      requires group != [] && Known(group) && Fleet(extra + multiset(tasks))
      modifies processers`newQueue
      ensures Fleet(extra + multiset(left)) && InAll(left) == old(InAll(tasks))
      ensures DealtOut(tasks, |group|, shares, left)
      ensures Views() == Dealt(old(Views()), group, shares)
      ensures |entries| == |shares| <= |group| && forall k: nat :: k < |entries| ==> entries[k].proc == group[k]
    {
      hide InAll, Fleet, Views, Dealt, Plus, Dealing, DealtOut;
      var avg := Share(|tasks|, |group|);
      var k := 0;
      left, entries, shares := tasks, [], [];
      NothingDealt(Views(), group, tasks);
      while k < |group| && left != []
        invariant k == |shares| == |entries| <= |group| && Dealing(tasks, |group|, shares, left)
        invariant Fleet(extra + multiset(left)) && InAll(left) == old(InAll(tasks))
        invariant Views() == Dealt(old(Views()), group, shares)
        invariant forall j: nat :: j < k ==> entries[j].proc == group[j]
      {
        ShareFits(tasks, |group|, shares, left);
        OneMore(old(Views()), group, shares, left[..avg]);
        var cut;
        cut, left := DealOne(left, avg, group[k], extra);
        shares, entries := shares + [cut], entries + [Active(processers[group[k]].RunnableSize(), group[k])];
        k := k + 1;
      }
      RestFits(tasks, |group|, shares, left);
    }

    /**
     * Deals tasks in equal shares to the processors of a group; what is left goes to the first.
     * Reports each processor dealt to, with its load.
     */
    method Deal(tasks: seq<nat>, group: seq<nat>, ghost extra: multiset<nat>)
      returns (entries: seq<Active>, ghost shares: seq<seq<nat>>, ghost rest: seq<nat>)
      requires group != [] && Known(group) && Fleet(extra + multiset(tasks))
      modifies processers`newQueue
      ensures Fleet(extra) && AllTasks(Views()) == old(AllTasks(Views())) + multiset(tasks)
      ensures DealtOut(tasks, |group|, shares, rest)
      ensures Views() == DealtTo(old(Views()), group, shares, rest) && Holdings() == old(Holdings())
      ensures |entries| == |shares| <= |group| && forall k: nat :: k < |entries| ==> entries[k].proc == group[k]
    {
      hide Tasks, AllTasks, DealtOut, Fleet, Views, Dealt, Plus;
      var left;
      entries, shares, left := DealShares(tasks, group, extra);
      rest := left;
      if left != [] {
        GiveTo(processers[group[0]], left, group[0], extra);
      } else {
        NoneLeft(AllTasks(Views()), extra, left);
      }
      assert Holdings() == old(Holdings());
    }

    /** Cuts one share off and gives it to a processor. */
    method DealOne(left: seq<nat>, avg: nat, target: nat, ghost extra: multiset<nat>)
      returns (cut: seq<nat>, rest: seq<nat>)
      requires avg <= |left| && target < |processers| && Fleet(extra + multiset(left))
      modifies processers`newQueue
      ensures cut == left[..avg] && rest == left[avg..] && Fleet(extra + multiset(rest))
      ensures InAll(rest) == old(InAll(left))
      ensures Views() == old(Views())[target := Plus(old(Views())[target], cut)]
    {
      hide Tasks, AllTasks, Fleet, Views;
      cut, rest := left[..avg], left[avg..];
      assert left == cut + rest;
      assert extra + multiset(left) == (extra + multiset(rest)) + multiset(cut);
      GiveTo(processers[target], cut, target, extra + multiset(rest));
    }

    /** Takes everything but the held tasks from one processor. */
    method StealAll(p: Processor, tasks: seq<nat>, ghost i: nat) returns (all: seq<nat>)
      requires i < |processers| && p == processers[i] && Fleet(multiset(tasks))
      modifies p`runQueue, p`newQueue, p`marked
      ensures Fleet(multiset(all))
      ensures var q := old(Views())[i]; all == tasks + (Rest(q.runQueue, Holdings()[i]) + q.newQueue)
      ensures AllTasks(Views()) + multiset(all) == old(AllTasks(Views())) + multiset(tasks)
      ensures Holdings() == old(Holdings()) && Views() == old(Views())[i := Queues(Holdings()[i], [])]
    {
      hide Tasks, AllTasks, Views, Fleet, Holdings, Divides, Rest, Others, Processor.Spare, Processor.HeldTasks;
      ghost var held, spare, was := p.HeldTasks(), p.Spare(), p.View();
      SpareIsRest(p);
      var stolen := StealFrom(p, 0, i, multiset(tasks));
      all := tasks + stolen;
      assert multiset(all) == multiset(tasks) + multiset(stolen);
      Sum(AllTasks(Views()), multiset(tasks), multiset(stolen));
      Everything(spare, held, was, p.View(), stolen);
    }

    /** Takes everything but the held tasks from each of the blocked processors. */
    method StealBlocked(blockings: seq<nat>) returns (tasks: seq<nat>)
      requires Known(blockings) && Fleet(multiset{}) && NoRepeats(blockings)
      modifies processers`runQueue, processers`newQueue, processers`marked
      ensures Fleet(multiset(tasks)) && AllTasks(Views()) + multiset(tasks) == old(AllTasks(Views()))
      ensures Holdings() == old(Holdings())
      ensures tasks == Freed(old(Views()), old(Holdings()), blockings)
      ensures Views() == Emptying(old(Views()), old(Holdings()), blockings)
    {
      hide Tasks, AllTasks, Views, Fleet, Holdings, Emptied, Rest;
      ghost var views, holdings := Views(), Holdings();
      tasks := [];
      NoneLeft(AllTasks(Views()), multiset{}, tasks);
      for k := 0 to |blockings|
        invariant Fleet(multiset(tasks)) && AllTasks(Views()) + multiset(tasks) == old(AllTasks(Views()))
        invariant Holdings() == old(Holdings())
        invariant tasks == Freed(views, holdings, blockings[..k])
        invariant Views() == Emptying(views, holdings, blockings[..k])
      {
        assert blockings[..k + 1][..k] == blockings[..k] && blockings[k] !in blockings[..k];
        tasks := StealAll(processers[blockings[k]], tasks, blockings[k]);
      }
      assert blockings[..|blockings|] == blockings;
    }

    /** The held tasks of every processor. */
    ghost function Holdings(): (holdings: seq<seq<nat>>)
      reads processers
      ensures |holdings| == |processers| && forall i: nat :: i < |holdings| ==> holdings[i] == processers[i].HeldTasks()
    {
      seq(|processers|, i requires 0 <= i < |processers| reads processers => processers[i].HeldTasks())
    }

    /** The new load map: the processors dealt to with their loads, those of the group once more, and the others. */
    method Reenter(actives: seq<Active>, g: nat, entries: seq<Active>) returns (m: seq<Active>)
      requires Sorted(actives) && Entered(actives) && 0 < g <= |actives| && |entries| <= g
      requires forall k: nat :: k < |entries| ==> entries[k].proc == actives[k].proc
      ensures m != [] && Sorted(m) && Entered(m)
      ensures Reentered(actives, g, Views(), m)
      ensures forall e: Active :: e in m ==> e.proc in Procs(actives)
    {
      hide Sorted, Reentered, Procs;
      SortedRest(actives, g);
      var rest, loads := actives[g..], Loads(actives[..g]);
      m := InsertAll(rest, entries);
      m := InsertAll(m, loads);
      AllEntered(actives, g, Views(), entries, loads, m);
    }

    /** The entries of a group with their present loads. */
    function Loads(group: seq<Active>): (loads: seq<Active>)
      requires Entered(group)
      reads processers
      ensures |loads| == |group| && forall k: nat :: k < |group| ==> loads[k] == Current(Views(), group[k].proc)
    {
      seq(|group|, k requires 0 <= k < |group| reads processers =>
        Active(processers[group[k].proc].RunnableSize(), group[k].proc))
    }

    /** Deals the tasks of blocked processors to those with the least load, and enters these with their new loads. */
    method DealToLeast(tasks: seq<nat>, actives: seq<Active>) returns (m: seq<Active>, ghost hand: Hand)
      requires actives != [] && Sorted(actives) && Entered(actives) && tasks != [] && Fleet(multiset(tasks))
      modifies processers`newQueue
      ensures Fleet(multiset{}) && AllTasks(Views()) == old(AllTasks(Views())) + multiset(tasks)
      ensures Holdings() == old(Holdings()) && OnlyThese(old(Views()), Views(), Procs(actives))
      ensures Moved(actives, tasks, old(Views()), Views(), hand, m)
      ensures m != [] && Sorted(m) && Entered(m) && forall e: Active :: e in m ==> e.proc in Procs(actives)
    {
      hide Tasks, AllTasks, Views, Fleet, DealtOut, DealtTo, Dealt, Holdings, OnlyThese, Reentered, Sorted;
      var g := Least(actives);
      var group := Procs(actives[..g]);
      assert multiset{} + multiset(tasks) == multiset(tasks);
      assert forall k: nat :: k < g ==> group[k] == Procs(actives)[k];
      assert Known(group);
      var entries;
      ghost var shares, rest;
      entries, shares, rest := Deal(tasks, group, multiset{});
      hand := Hand(shares, rest);
      DealtElsewhere(old(Views()), group, shares, rest, Procs(actives));
      m := Reenter(actives, g, entries);
    }

    /** Steals tasks of the busiest processor and deals them to the idle ones. */
    method Feed(m: seq<Active>, n: nat) returns (ghost stolen: seq<nat>, ghost donor: Queues<nat>, ghost hand: Hand)
      requires m != [] && Sorted(m) && Entered(m) && Fleet(multiset{}) && n == Helping(m, Views()) > 0
      modifies processers`runQueue, processers`newQueue, processers`marked
      ensures Fleet(multiset{}) && AllTasks(Views()) == old(AllTasks(Views())) && Holdings() == old(Holdings())
      ensures Fed(m, old(Holdings()), old(Views()), Views(), stolen, donor, hand)
      ensures |stolen| + |donor.runQueue| + |donor.newQueue| == Current(old(Views()), m[|m| - 1].proc).load
      ensures OnlyThese(old(Views()), Views(), Procs(m))
    {
      hide Tasks, AllTasks, Views, Fleet, DealtOut, DealtTo, Dealt, Divides, Holdings, OnlyThese, Rest, Helping;
      hide Sorted;
      ghost var max, views := m[|m| - 1].proc, Views();
      var maxP := processers[m[|m| - 1].proc];
      var group := Procs(m[..Least(m)]);
      assert forall k: nat :: k < |group| ==> group[k] == Procs(m)[k];
      assert max == Procs(m)[|m| - 1] && Known(group);
      SpareIsRest(maxP);
      assert views[max] == maxP.View() && Current(views, max).load == maxP.RunnableSize();
      var tasks := StealFrom(maxP, n, m[|m| - 1].proc, multiset{});
      stolen, donor := tasks, maxP.View();
      assert multiset{} + multiset(tasks) == multiset(tasks);
      if tasks == [] {
        NoneLeft(AllTasks(Views()), multiset{}, tasks);
        NoneDealt(Views(), group);
        hand := Hand([], []);
      } else {
        var entries;
        ghost var shares, rest;
        entries, shares, rest := Deal(tasks, group, multiset{});
        hand := Hand(shares, rest);
      }
      DealtElsewhere(views[max := donor], group, hand.shares, hand.rest, Procs(m));
      OneOfThem(views, max, donor, Views(), Procs(m));
    }

    /** Steals up to half of the busiest processor's tasks for the idle ones. */
    method FeedIdle(m: seq<Active>) returns (ghost stolen: seq<nat>, ghost donor: Queues<nat>, ghost hand: Hand)
      requires m != [] && Sorted(m) && Entered(m) && Fleet(multiset{})
      modifies processers`runQueue, processers`newQueue, processers`marked
      ensures Fleet(multiset{}) && AllTasks(Views()) == old(AllTasks(Views())) && Holdings() == old(Holdings())
      ensures Fed(m, old(Holdings()), old(Views()), Views(), stolen, donor, hand)
      ensures Helps(m, old(Holdings()), old(Views()), Views(), stolen, donor, hand)
      ensures OnlyThese(old(Views()), Views(), Procs(m))
    {
      hide Tasks, AllTasks, Views, Fleet, DealtOut, DealtTo, Divides, Holdings, OnlyThese, Rest, Sorted, Helps;
      RestUnchanged(Views(), Procs(m));
      ghost var views, holdings := Views(), Holdings();
      stolen, donor, hand := [], Queues([], []), Hand([], []);
      var waiting := Least(m);
      if m[0].load == 0 && waiting != |m| {
        var half := processers[m[|m| - 1].proc].RunnableSize() / 2;
        var n := if half < waiting * 1024 then half else waiting * 1024;
        if n > 0 {
          stolen, donor, hand := Feed(m, n);
        }
      }
      FedHelps(m, holdings, views, Views(), stolen, donor, hand);
    }

    /** Deals the freed tasks, if there are any. */
    method DealFreed(tasks: seq<nat>, actives: seq<Active>) returns (m: seq<Active>, ghost hand: Hand)
      requires actives != [] && Sorted(actives) && Entered(actives) && Fleet(multiset(tasks))
      modifies processers`newQueue
      ensures Fleet(multiset{}) && AllTasks(Views()) == old(AllTasks(Views())) + multiset(tasks)
      ensures Holdings() == old(Holdings()) && OnlyThese(old(Views()), Views(), Procs(actives))
      ensures Moved(actives, tasks, old(Views()), Views(), hand, m)
      ensures m != [] && Sorted(m) && Entered(m) && forall e: Active :: e in m ==> e.proc in Procs(actives)
    {
      hide Tasks, AllTasks, Views, Fleet, Holdings, DealtOut, Reentered, DealtTo, OnlyThese, Sorted;
      m, hand := actives, Hand([], []);
      if tasks != [] {
        m, hand := DealToLeast(tasks, actives);
      } else {
        NoneLeft(AllTasks(Views()), multiset{}, tasks);
        RestUnchanged(Views(), Procs(actives));
        assert forall k: nat :: k < |actives| ==> actives[k].proc == Procs(actives)[k];
      }
    }

    /**
     * One round of the dispatcher. The tasks of blocked processors are dealt to the least loaded ones,
     * which are entered anew, and with that the busiest processor feeds the idle ones. No task is lost
     * and none is doubled, and the held tasks of every processor have stayed in its run queue.
     */
    method Rebalance(blockings: seq<nat>, actives: seq<Active>)
      returns (ghost dealt: seq<Queues<nat>>, ghost first: Hand, ghost m: seq<Active>,
               ghost stolen: seq<nat>, ghost donor: Queues<nat>, ghost second: Hand)
      requires actives != [] && Sorted(actives) && Entered(actives)
      requires Known(blockings) && NoRepeats(blockings) && Fleet(multiset{})
      modifies processers`runQueue, processers`newQueue, processers`marked
      ensures Fleet(multiset{}) && AllTasks(Views()) == old(AllTasks(Views())) && Holdings() == old(Holdings())
      ensures var views, holdings := old(Views()), old(Holdings());
              var freed, emptied := Freed(views, holdings, blockings), Emptying(views, holdings, blockings);
              && Moved(actives, freed, emptied, dealt, first, m)
              && Fed(m, holdings, dealt, Views(), stolen, donor, second)
              && Helps(m, holdings, dealt, Views(), stolen, donor, second)
      ensures forall k: nat :: k < |blockings| && blockings[k] !in Procs(actives) ==>
        Views()[blockings[k]] == Queues(Holdings()[blockings[k]], [])
    {
      hide Tasks, AllTasks, Views, Fleet, Holdings, Moved, Fed, Helps, Freed, Sorted;
      var tasks := StealBlocked(blockings);
      var map';
      map', first := DealFreed(tasks, actives);
      m, dealt := map', Views();
      assert forall i: nat :: i in Procs(m) ==> i in Procs(actives);
      stolen, donor, second := FeedIdle(map');
    }

    predicate Entered(m: seq<Active>) {
      forall e: Active :: e in m ==> e.proc < |processers|
    }

    predicate Known(group: seq<nat>) {
      forall k: nat :: k < |group| ==> group[k] < |processers|
    }
  }

  /** The processors of the list have nothing but their held tasks. */
  ghost predicate Emptied(views: seq<Queues<nat>>, holdings: seq<seq<nat>>, list: seq<nat>) {
    |views| == |holdings| && forall k: nat :: k < |list| ==>
      list[k] < |views| && views[list[k]] == Queues(holdings[list[k]], [])
  }

  /** A run queue without the held tasks. */
  function Rest(q: seq<nat>, held: seq<nat>): seq<nat>
    decreases held
  {
    if held == [] then q else Rest(Without(q, held[0]), held[1..])
  }

  lemma SpareIsRest(p: Processor)
    ensures p.Spare() == Rest(p.runQueue, p.HeldTasks())
  {
    var a, b, held := p.Linked(p.running), p.Linked(p.next), p.HeldTasks();
    if held != [] {
      assert held[1..] == if a.Some? then One(b) else [];
      assert Rest(p.runQueue, held) == Rest(Without(p.runQueue, held[0]), held[1..]);
    }
  }

  /** A steal of everything leaves the held tasks alone. */
  lemma Everything(spare: seq<nat>, held: seq<nat>, before: Queues<nat>, after: Queues<nat>, stolen: seq<nat>)
    requires Divides(0, spare, held, before, after, stolen)
    ensures stolen == spare + before.newQueue && after == Queues(held, [])
  {
    var r := |spare|;
    assert stolen == stolen[..r] + stolen[r..] && [] + stolen[r..] == before.newQueue && [] + held == held;
  }

  /** What the listed processors have, one after the other, but for their held tasks. */
  function Freed(views: seq<Queues<nat>>, holdings: seq<seq<nat>>, list: seq<nat>): seq<nat>
    requires |views| == |holdings| && forall k: nat :: k < |list| ==> list[k] < |views|
  {
    if list == [] then []
    else
      var last := list[|list| - 1];
      Freed(views, holdings, list[..|list| - 1]) + (Rest(views[last].runQueue, holdings[last]) + views[last].newQueue)
  }

  /** The queues when that is taken out. */
  function Emptying(views: seq<Queues<nat>>, holdings: seq<seq<nat>>, list: seq<nat>): (r: seq<Queues<nat>>)
    requires |views| == |holdings| && forall k: nat :: k < |list| ==> list[k] < |views|
    ensures |r| == |views| && Emptied(r, holdings, list) && OnlyThese(views, r, list)
  {
    if list == [] then views
    else
      var last := list[|list| - 1];
      Emptying(views, holdings, list[..|list| - 1])[last := Queues(holdings[last], [])]
  }

  /** The size of a share: an equal part, but at least one task. */
  function Share(tasks: nat, group: nat): nat
    requires group > 0
  {
    if tasks / group == 0 then 1 else tasks / group
  }

  /** The shares dealt so far, and what is left of the tasks. */
  ghost predicate Dealing(tasks: seq<nat>, group: nat, shares: seq<seq<nat>>, left: seq<nat>)
    requires group > 0
  {
    && Flatten(shares) + left == tasks && Equal(shares, Share(|tasks|, group))
    && |left| + |shares| * Share(|tasks|, group) == |tasks|
  }

  lemma ShareFits(tasks: seq<nat>, group: nat, shares: seq<seq<nat>>, left: seq<nat>)
    requires |shares| < group && left != [] && Dealing(tasks, group, shares, left)
    ensures var share := Share(|tasks|, group);
            share <= |left| && Dealing(tasks, group, shares + [left[..share]], left[share..])
  {
    var k, q, share := |shares|, |tasks| / group, Share(|tasks|, group);
    Base256.Distribute(k, 1, share);
    if q > 0 {
      Base256.MulStep(k, group, q);
    }
    var more := shares + [left[..share]];
    assert more[..|more| - 1] == shares;
    assert Flatten(more) + left[share..] == Flatten(shares) + (left[..share] + left[share..]);
    assert left[..share] + left[share..] == left;
  }

  lemma RestFits(tasks: seq<nat>, group: nat, shares: seq<seq<nat>>, left: seq<nat>)
    requires 0 < group && |shares| <= group && Dealing(tasks, group, shares, left) && (|shares| == group || left == [])
    ensures DealtOut(tasks, group, shares, left)
  {
    CountFits(|tasks|, group, |shares|, |left|);
  }

  lemma CountFits(tasks: nat, group: nat, n: nat, left: nat)
    requires 0 < group && n <= group && (n == group || left == 0) && left + n * Share(tasks, group) == tasks
    ensures n == (if tasks < group then tasks else group) && left < group
  {
    var q := tasks / group;
    if q > 0 {
      Base256.FloorBounds(tasks, group);
      if n < group {
        Base256.MulStep(n, group, q);
      }
    }
  }

  lemma OnlyOne(n: nat, size: nat)
    requires 0 < n && n * size == n
    ensures size == 1
  {
    if size >= 2 {
      Base256.MulMono(2, size, n);
    }
  }

  /** The size of the shares: an equal part, or one task each. */
  lemma ShareSize(tasks: seq<nat>, group: nat, shares: seq<seq<nat>>, rest: seq<nat>, k: nat)
    requires 0 < group && DealtOut(tasks, group, shares, rest) && k < |shares|
    ensures |shares[k]| == (if |tasks| < group then 1 else |tasks| / group)
    ensures |rest| == if |tasks| < group then 0 else |tasks| % group
  {
    var size := |shares[k]|;
    FlattenSize(shares, size);
    if |tasks| < group {
      OnlyOne(|tasks|, size);
    } else {
      Base256.DivModUnique(|tasks|, group, size, |rest|);
    }
  }

  lemma {:induction false} FlattenSize(shares: seq<seq<nat>>, size: nat)
    requires forall k: nat :: k < |shares| ==> |shares[k]| == size
    ensures |Flatten(shares)| == |shares| * size
  {
    if shares != [] {
      FlattenSize(shares[..|shares| - 1], size);
      Base256.Distribute(|shares| - 1, 1, size);
    }
  }

  /** The k-th processor of the group gets the k-th share, and the first one also what is left. */
  lemma DealtGets(views: seq<Queues<nat>>, group: seq<nat>, shares: seq<seq<nat>>, rest: seq<nat>, k: nat)
    requires NoRepeats(group) && k < |group| && |shares| <= |group|
    requires forall j: nat :: j < |group| ==> group[j] < |views|
    ensures var i := group[k];
            var got := (if k < |shares| then shares[k] else []) + (if k == 0 then rest else []);
            DealtTo(views, group, shares, rest)[i] == views[i].(newQueue := views[i].newQueue + got)
  {
    hide Dealt;
    ShareGets(views, group, shares, k);
    assert group[0] == group[k] <==> k == 0;
  }

  lemma {:induction false} ShareGets(views: seq<Queues<nat>>, group: seq<nat>, shares: seq<seq<nat>>, k: nat)
    requires NoRepeats(group) && k < |group| && |shares| <= |group|
    requires forall j: nat :: j < |group| ==> group[j] < |views|
    ensures var i := group[k];
            Dealt(views, group, shares)[i]
            == views[i].(newQueue := views[i].newQueue + if k < |shares| then shares[k] else [])
    decreases |shares|
  {
    if shares != [] {
      var n := |shares| - 1;
      assert group[n] == group[k] <==> n == k;
      ShareGets(views, group, shares[..n], k);
      assert k < n ==> shares[..n][k] == shares[k];
    }
  }

  lemma NoneLeft(all: multiset<nat>, extra: multiset<nat>, left: seq<nat>)
    requires left == []
    ensures extra + multiset(left) == extra && all + multiset(left) == all
  {
  }

  lemma NothingDealt(views: seq<Queues<nat>>, group: seq<nat>, tasks: seq<nat>)
    requires group != [] && forall k: nat :: k < |group| ==> group[k] < |views|
    ensures Dealing(tasks, |group|, [], tasks) && Dealt(views, group, []) == views
  {
  }

  lemma OneMore(views: seq<Queues<nat>>, group: seq<nat>, shares: seq<seq<nat>>, cut: seq<nat>)
    requires |shares| < |group| && forall k: nat :: k < |group| ==> group[k] < |views|
    ensures var dealt, to := Dealt(views, group, shares), group[|shares|];
            Dealt(views, group, shares + [cut]) == dealt[to := Plus(dealt[to], cut)]
  {
    hide Plus;
    var more := shares + [cut];
    assert more[..|more| - 1] == shares && more[|shares|] == cut;
  }

  function Flatten(shares: seq<seq<nat>>): seq<nat> {
    if shares == [] then [] else Flatten(shares[..|shares| - 1]) + shares[|shares| - 1]
  }

  ghost predicate Equal(shares: seq<seq<nat>>, size: nat) {
    forall k: nat :: k < |shares| ==> |shares[k]| == size
  }

  /** The tasks cut, in their order, into equal shares and a rest that is smaller than the group. */
  ghost predicate DealtOut(tasks: seq<nat>, group: nat, shares: seq<seq<nat>>, rest: seq<nat>)
    requires group > 0
  {
    && Flatten(shares) + rest == tasks && |rest| < group && (|shares| < group ==> rest == [])
    && |shares| == (if |tasks| < group then |tasks| else group)
    && forall j: nat, k: nat :: j < |shares| && k < |shares| ==> |shares[j]| == |shares[k]|
  }

  /** The k-th share goes to the k-th processor of the group. */
  function Dealt(views: seq<Queues<nat>>, group: seq<nat>, shares: seq<seq<nat>>): (r: seq<Queues<nat>>)
    requires |shares| <= |group| && forall k: nat :: k < |group| ==> group[k] < |views|
    ensures |r| == |views|
    decreases |shares|
  {
    if shares == [] then views
    else
      var k := |shares| - 1;
      var before := Dealt(views, group, shares[..k]);
      before[group[k] := Plus(before[group[k]], shares[k])]
  }

  /** The shares go to the group and the rest to its first processor. */
  function DealtTo(views: seq<Queues<nat>>, group: seq<nat>, shares: seq<seq<nat>>, rest: seq<nat>)
    : (r: seq<Queues<nat>>)
    requires group != [] && |shares| <= |group| && forall k: nat :: k < |group| ==> group[k] < |views|
    ensures |r| == |views|
  {
    var dealt := Dealt(views, group, shares);
    if rest == [] then dealt else dealt[group[0] := Plus(dealt[group[0]], rest)]
  }

  /** Only these processors' queues have changed. */
  ghost predicate OnlyThese(before: seq<Queues<nat>>, after: seq<Queues<nat>>, procs: seq<nat>) {
    |before| == |after| && forall i: nat :: i < |before| && i !in procs ==> after[i] == before[i]
  }

  lemma RestUnchanged(views: seq<Queues<nat>>, procs: seq<nat>)
    ensures OnlyThese(views, views, procs)
  {
  }

  lemma OneOfThem(views: seq<Queues<nat>>, i: nat, v: Queues<nat>, after: seq<Queues<nat>>, procs: seq<nat>)
    requires i < |views| && i in procs && OnlyThese(views[i := v], after, procs)
    ensures OnlyThese(views, after, procs)
  {
  }

  /** A processor outside the group gets nothing. */
  lemma {:induction false} DealtElsewhere(
      views: seq<Queues<nat>>, group: seq<nat>, shares: seq<seq<nat>>, rest: seq<nat>, procs: seq<nat>)
    requires group != [] && |shares| <= |group|
    requires forall k: nat :: k < |group| ==> group[k] < |views| && group[k] in procs
    ensures OnlyThese(views, DealtTo(views, group, shares, rest), procs)
    decreases |shares|
  {
    if shares != [] {
      DealtElsewhere(views, group, shares[..|shares| - 1], [], procs);
    }
  }

  lemma NoneDealt(views: seq<Queues<nat>>, group: seq<nat>)
    requires group != [] && forall k: nat :: k < |group| ==> group[k] < |views|
    ensures DealtOut([], |group|, [], []) && DealtTo(views, group, [], []) == views
  {
  }

  lemma PlusTasks(q: Queues<nat>, tasks: seq<nat>)
    ensures Tasks(q) + multiset(tasks) == Tasks(Plus(q, tasks))
  {
  }
}

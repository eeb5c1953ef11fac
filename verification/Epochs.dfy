/// Suspending and waking coroutines. Every suspension takes a number from the
/// task's counter, and an entry that carries the number can end that suspension
/// and no other. Processors, wakers and thieves interleave freely; each access
/// under a processor's lock, and each access to the counter, is one step.
module SuspendEpochs {
  import opened Options
  import opened Sequences

  const WORD := 0x1_0000_0000_0000_0000

  /** Where a task is linked; a stolen one is in the dispatcher's list until it is delivered. */
  datatype Place = Runnable(proc: nat) | Waiting(proc: nat) | New(proc: nat) | Stolen | Finished

  /**
   * What a processor is doing. A task that goes to sleep is marked and then moved to the wait queue;
   * one that is done is ending while it is still linked, and ended after. `next` runs after it.
   */
  datatype Proc =
    | Idle
    | Active(running: nat)
    | Marked(running: nat)
    | Moved(running: nat, next: Option<nat>)
    | Ending(running: nat, next: Option<nat>)
    | Ended(running: nat, next: Option<nat>)

  /** `home` is history: the place the task was last linked in. */
  datatype Task = Task(suspendId: nat, proc: Option<nat>, blocked: bool, home: Place)

  /** The handle a suspension gives out. */
  datatype Entry = Entry(task: nat, id: nat)

  /** A wakeup under way: it has read which processor the task belongs to. */
  datatype Waker = Waker(entry: Entry, proc: nat)

  datatype State = State(
    procs: map<nat, Proc>, tasks: map<nat, Task>, queues: map<Place, seq<nat>>, wakers: set<Waker>,
    issued: set<Entry>, woken: seq<Entry>)

  datatype Step =
    | Spawn(task: nat, p: nat)
    | Run(p: nat)
    | Yield(p: nat)
    | FinishNext(p: nat)
    | FinishErase(p: nat)
    | FinishSwitch(p: nat)
    | SuspendMark(p: nat)
    | SuspendMove(p: nat)
    | SwapOut(p: nat)
    | WakeRead(entry: Entry)
    | WakeGiveUp(waker: Waker)
    | WakeCommit(waker: Waker)
    | Steal(task: nat, from: Place)
    | Rotate(task: nat, p: nat)
    | Deliver(task: nat, q: nat)

  function Increment(id: nat): nat {
    (id + 1) % WORD
  }

  function Queue(s: State, place: Place): seq<nat> {
    if place in s.queues then s.queues[place] else []
  }

  /** The task linked after t. */
  function Successor(q: seq<nat>, t: nat): Option<nat> {
    if |q| < 2 then None else if q[0] == t then Some(q[1]) else Successor(q[1..], t)
  }

  function ProcOf(s: State, p: nat): Proc {
    if p in s.procs then s.procs[p] else Idle
  }

  function TaskOf(s: State, t: nat): Task {
    if t in s.tasks then s.tasks[t] else Task(0, None, false, Finished)
  }

  /** Unlinks a task from one queue and links it at the end of another. */
  function Move(s: State, t: nat, from: Place, to: Place): State {
    var cut := s.(queues := s.queues[from := Without(Queue(s, from), t)]);
    cut.(queues := cut.queues[to := Queue(cut, to) + [t]], tasks := s.tasks[t := TaskOf(s, t).(home := to)])
  }

  /** A processor switches to a task, or to none. */
  function SwitchTo(s: State, p: nat, next: Option<nat>): State {
    match next
    case None => s.(procs := s.procs[p := Idle])
    case Some(t) =>
      s.(procs := s.procs[p := Active(t)], tasks := s.tasks[t := TaskOf(s, t).(proc := Some(p), blocked := false)])
  }

  /** The entry carries the number its task has now. */
  predicate Current(s: State, e: Entry) {
    e.task in s.tasks && s.tasks[e.task].suspendId == e.id
  }

  function NextOf(proc: Proc): Option<nat> {
    match proc
    case Moved(_, next) => next
    case Ending(_, next) => next
    case Ended(_, next) => next
    case _ => None
  }

  /** The processor is running the task, or about to. */
  predicate Held(proc: Proc, t: nat) {
    !proc.Idle? && (proc.running == t || NextOf(proc) == Some(t))
  }

  predicate Enabled(s: State, step: Step) {
    match step
    case Spawn(t, p) => t !in s.tasks
    case Run(p) => ProcOf(s, p).Idle? && Queue(s, Runnable(p)) != []
    case Yield(p) => ProcOf(s, p).Active?
    case FinishNext(p) => ProcOf(s, p).Active? || (ProcOf(s, p).Ending? && ProcOf(s, p).next == None)
    case FinishErase(p) => ProcOf(s, p).Ending?
    case FinishSwitch(p) => ProcOf(s, p).Ended?
    case SuspendMark(p) => ProcOf(s, p).Active?
    case SuspendMove(p) => ProcOf(s, p).Marked?
    case SwapOut(p) => ProcOf(s, p).Moved?
    case WakeRead(e) => e in s.issued
    case WakeGiveUp(w) => w in s.wakers && !Current(s, w.entry)
    case WakeCommit(w) => w in s.wakers
    case Steal(t, from) =>
      && t in Queue(s, from) && (from.New? || from.Runnable?)
      && (from.Runnable? ==> !Held(ProcOf(s, from.proc), t))
    case Rotate(t, p) => t in Queue(s, Runnable(p)) && Held(ProcOf(s, p), t)
    case Deliver(t, q) => t in Queue(s, Stolen)
  }

  function Bump(s: State, t: nat): State {
    s.(tasks := s.tasks[t := TaskOf(s, t).(suspendId := Increment(TaskOf(s, t).suspendId))])
  }

  // ------------------------------------------------------------ the invariant

  ghost predicate At(s: State, t: nat, place: Place) {
    t in s.tasks && s.tasks[t].home == place
  }

  /** Every task is linked in exactly the one queue that is its home. */
  ghost predicate Linked(s: State) {
    && (forall place: Place, t: nat :: t in Queue(s, place) <==> At(s, t, place))
    && (forall place: Place :: NoRepeats(Queue(s, place)))
  }

  /** The task has taken a number and is not yet in the wait queue. */
  ghost predicate Marking(s: State, t: nat) {
    t in s.tasks && s.tasks[t].proc.Some? && ProcOf(s, s.tasks[t].proc.value) == Marked(t)
  }

  /** The counter of a task is odd exactly while the task is going to sleep or asleep. */
  ghost predicate Counted(s: State, n: nat, t: nat) {
    t in s.tasks ==>
      var task := s.tasks[t];
      && task.suspendId <= n
      && (task.suspendId % 2 == 1 <==> task.home.Waiting? || Marking(s, t))
      && (task.home.Waiting? ==> task.proc == Some(task.home.proc) && Entry(t, task.suspendId) in s.issued)
      && (Marking(s, t) ==> Entry(t, task.suspendId) !in s.issued)
  }

  ghost predicate Running(s: State, p: nat) {
    var proc := ProcOf(s, p);
    !proc.Idle? ==>
      && proc.running in s.tasks && s.tasks[proc.running].proc == Some(p)
      && (proc.Marked? || proc.Moved? <==> s.tasks[proc.running].blocked)
      && RunsAt(s, p, proc)
      && (NextOf(proc).Some? ==>
            At(s, NextOf(proc).value, Runnable(p)) && NextOf(proc).value != proc.running)
  }

  /** Where the task that a processor runs is linked. */
  ghost predicate RunsAt(s: State, p: nat, proc: Proc) {
    match proc
    case Idle => true
    case Active(t) => At(s, t, Runnable(p))
    case Marked(t) => At(s, t, Runnable(p))
    case Moved(t, _) => At(s, t, Runnable(p)) || At(s, t, Waiting(p))
    case Ending(t, _) => At(s, t, Runnable(p))
    case Ended(t, _) => At(s, t, Finished)
  }

  ghost predicate Issued(s: State, e: Entry) {
    e in s.issued ==>
      && e.task in s.tasks && e.id <= s.tasks[e.task].suspendId && e.id % 2 == 1
      && (e in s.woken <==> e.id < s.tasks[e.task].suspendId)
  }

  ghost predicate Waking(s: State, w: Waker) {
    w in s.wakers ==> w.entry in s.issued && (Current(s, w.entry) ==> s.tasks[w.entry.task].proc == Some(w.proc))
  }

  /** What every reachable state keeps; n bounds the counters. */
  ghost predicate Sound(s: State, n: nat) {
    && Linked(s)
    && (forall t: nat :: Counted(s, n, t))
    && (forall p: nat :: Running(s, p))
    && (forall e: Entry :: Issued(s, e))
    && (forall w: Waker :: Waking(s, w))
    && (forall e: Entry :: e in s.woken ==> e in s.issued)
    && NoRepeats(s.woken)
  }

  // ------------------------------------------------------------ the steps

  function Next(s: State, step: Step): State
    requires Enabled(s, step)
  {
    match step
    case Spawn(t, p) =>
      s.(tasks := s.tasks[t := Task(0, None, false, Runnable(p))],
         queues := s.queues[Runnable(p) := Queue(s, Runnable(p)) + [t]])
    case Run(p) => SwitchTo(s, p, Some(Queue(s, Runnable(p))[0]))
    case Yield(p) => SwitchTo(s, p, Successor(Queue(s, Runnable(p)), ProcOf(s, p).running))
    case FinishNext(p) =>
      var t := ProcOf(s, p).running;
      s.(procs := s.procs[p := Ending(t, Successor(Queue(s, Runnable(p)), t))])
    case FinishErase(p) =>
      var proc := ProcOf(s, p);
      Move(s.(procs := s.procs[p := Ended(proc.running, proc.next)]), proc.running, Runnable(p), Finished)
    case FinishSwitch(p) => SwitchTo(s, p, ProcOf(s, p).next)
    case SuspendMark(p) =>
      var t := ProcOf(s, p).running;
      Bump(s.(tasks := s.tasks[t := TaskOf(s, t).(blocked := true)], procs := s.procs[p := Marked(t)]), t)
    case SuspendMove(p) =>
      var t := ProcOf(s, p).running;
      var next := Successor(Queue(s, Runnable(p)), t);
      var moved := Move(s, t, Runnable(p), Waiting(p));
      moved.(procs := s.procs[p := Moved(t, next)], issued := s.issued + {Entry(t, TaskOf(s, t).suspendId)})
    case SwapOut(p) => SwitchTo(s, p, ProcOf(s, p).next)
    case WakeRead(e) =>
      if e.task in s.tasks && s.tasks[e.task].proc.Some?
      then s.(wakers := s.wakers + {Waker(e, s.tasks[e.task].proc.value)}) else s
    case WakeGiveUp(w) => s.(wakers := s.wakers - {w})
    case WakeCommit(w) =>
      var done := s.(wakers := s.wakers - {w});
      if !Current(s, w.entry) then done
      else
        var t := w.entry.task;
        Move(Bump(done.(woken := s.woken + [w.entry]), t), t, Waiting(w.proc), Runnable(w.proc))
    case Steal(t, from) => Move(s, t, from, Stolen)
    case Rotate(t, p) => Move(s, t, Runnable(p), Runnable(p))
    case Deliver(t, q) => Move(s, t, Stolen, New(q))
  }

  // ------------------------------------------------------------ queues

  lemma {:induction false} SuccessorSpec(q: seq<nat>, t: nat)
    requires NoRepeats(q)
    ensures Successor(q, t).Some? ==> Successor(q, t).value in q && Successor(q, t).value != t
  {
    if |q| >= 2 && q[0] != t {
      assert forall i: nat :: i < |q[1..]| ==> q[1..][i] == q[i + 1];
      SuccessorSpec(q[1..], t);
    }
  }

  /** Relinking a task keeps every task linked in its home queue and nowhere else. */
  lemma MoveLinked(s: State, t: nat, from: Place, to: Place)
    requires Linked(s) && At(s, t, from)
    ensures Linked(Move(s, t, from, to))
    ensures t in Queue(s, from)
  {
    var m := Move(s, t, from, to);
    WithoutSpec(Queue(s, from), t);
    forall place: Place
      ensures forall x: nat :: x in Queue(m, place) <==> At(m, x, place)
      ensures NoRepeats(Queue(m, place))
    {
      if place == to {
        assert Queue(m, place) == (if to == from then Without(Queue(s, place), t) else Queue(s, place)) + [t];
        assert to != from ==> t !in Queue(s, place);
      } else if place == from {
        assert Queue(m, place) == Without(Queue(s, place), t);
      } else {
        assert Queue(m, place) == Queue(s, place);
      }
      forall x: nat
        ensures x in Queue(m, place) <==> At(m, x, place)
      {
        assert x in Queue(s, place) <==> At(s, x, place);
      }
    }
  }

  // ------------------------------------------------------------ every step keeps the invariant

  /** A task outside the wait queues has taken no number, unless its processor is about to suspend it. */
  lemma NotMarking(s: State, t: nat, place: Place)
    requires forall q: nat :: Running(s, q)
    requires At(s, t, place) && (place.Runnable? ==> ProcOf(s, place.proc) != Marked(t))
    ensures !Marking(s, t)
  {
    var proc := s.tasks[t].proc;
    assert proc.Some? ==> Running(s, proc.value);
  }

  lemma SwitchKeeps(s: State, n: nat, p: nat, next: Option<nat>)
    requires Sound(s, n) && !ProcOf(s, p).Marked?
    requires next.Some? ==> At(s, next.value, Runnable(p))
    ensures Sound(SwitchTo(s, p, next), n)
  {
    var s' := SwitchTo(s, p, next);
    assert forall place: Place :: Queue(s', place) == Queue(s, place);
    assert forall place: Place, t: nat :: At(s', t, place) <==> At(s, t, place);
    forall q: nat
      ensures Running(s', q)
    {
      assert Running(s, q);
    }
    if next.Some? {
      NotMarking(s, next.value, Runnable(p));
      NotMarking(s', next.value, Runnable(p));
    }
    forall t: nat
      ensures Counted(s', n, t)
    {
      assert Counted(s, n, t);
    }
    forall e: Entry
      ensures Issued(s', e)
    {
      assert Issued(s, e);
    }
    forall w: Waker
      ensures Waking(s', w)
    {
      assert Waking(s, w);
      if next.Some? && w.entry.task == next.value {
        assert Issued(s, w.entry) && Counted(s, n, next.value);
      }
    }
  }

  lemma SpawnKeeps(s: State, n: nat, t: nat, p: nat)
    requires Sound(s, n) && t !in s.tasks
    ensures Sound(Next(s, Spawn(t, p)), n)
  {
    var s' := Next(s, Spawn(t, p));
    forall place: Place
      ensures forall x: nat :: x in Queue(s', place) <==> At(s', x, place)
      ensures NoRepeats(Queue(s', place))
    {
      assert forall x: nat :: x in Queue(s, place) <==> At(s, x, place);
      assert t in Queue(s, place) <==> At(s, t, place);
      assert Queue(s', place) == if place == Runnable(p) then Queue(s, place) + [t] else Queue(s, place);
    }
    forall q: nat
      ensures Running(s', q)
    {
      assert Running(s, q);
    }
    forall x: nat
      ensures Counted(s', n, x)
    {
      assert Counted(s, n, x);
    }
    forall e: Entry
      ensures Issued(s', e)
    {
      assert Issued(s, e);
    }
    forall w: Waker
      ensures Waking(s', w)
    {
      assert Waking(s, w) && Issued(s, w.entry);
    }
  }

  /** Linking depends on the queues and the homes alone. */
  lemma SameLinked(s: State, s': State)
    requires Linked(s) && s'.queues == s.queues
    requires forall t: nat, place: Place :: At(s', t, place) <==> At(s, t, place)
    ensures Linked(s')
  {
    assert forall place: Place :: Queue(s', place) == Queue(s, place);
  }

  lemma MarkKeeps(s: State, n: nat, p: nat)
    requires Sound(s, n) && ProcOf(s, p).Active? && n + 1 < WORD
    ensures Sound(Next(s, SuspendMark(p)), n + 1)
  {
    hide Linked, NoRepeats;
    var t := ProcOf(s, p).running;
    var s', after := Next(s, SuspendMark(p)), n + 1;
    assert Running(s, p) && Counted(s, n, t);
    NotMarking(s, t, Runnable(p));
    SameLinked(s, s');
    forall q: nat
      ensures Running(s', q)
    {
      assert Running(s, q);
    }
    forall x: nat
      ensures Counted(s', after, x)
    {
      assert Counted(s, n, x);
      assert Issued(s, Entry(t, s'.tasks[t].suspendId));
    }
    forall e: Entry
      ensures Issued(s', e)
    {
      assert Issued(s, e);
    }
    forall w: Waker
      ensures Waking(s', w)
    {
      assert Waking(s, w) && Issued(s, w.entry);
    }
  }

  lemma SuspendKeeps(s: State, n: nat, p: nat)
    requires Sound(s, n) && ProcOf(s, p).Marked?
    ensures Sound(Next(s, SuspendMove(p)), n)
  {
    var t := ProcOf(s, p).running;
    var s' := Next(s, SuspendMove(p));
    assert Running(s, p) && Counted(s, n, t);
    MoveLinked(s, t, Runnable(p), Waiting(p));
    SuccessorSpec(Queue(s, Runnable(p)), t);
    assert forall place: Place :: Queue(s', place) == Queue(Move(s, t, Runnable(p), Waiting(p)), place);
    forall q: nat
      ensures Running(s', q)
    {
      assert Running(s, q);
    }
    forall x: nat
      ensures Counted(s', n, x)
    {
      assert Counted(s, n, x);
    }
    forall e: Entry
      ensures Issued(s', e)
    {
      assert Issued(s, e);
    }
    forall w: Waker
      ensures Waking(s', w)
    {
      assert Waking(s, w);
    }
  }

  /** A task that no processor holds goes from a queue to another list. */
  lemma RelinkKeeps(s: State, n: nat, t: nat, from: Place, to: Place)
    requires Sound(s, n) && At(s, t, from) && (from.Runnable? || from.New? || from.Stolen?)
    requires from.Runnable? ==> !Held(ProcOf(s, from.proc), t)
    requires to.New? || to.Stolen?
    ensures Sound(Move(s, t, from, to), n)
  {
    hide NoRepeats, Without;
    var s' := Move(s, t, from, to);
    MoveLinked(s, t, from, to);
    NotMarking(s, t, from);
    forall q: nat
      ensures Running(s', q)
    {
      assert Running(s, q);
    }
    forall x: nat
      ensures Counted(s', n, x)
    {
      assert Counted(s, n, x);
    }
    forall e: Entry
      ensures Issued(s', e)
    {
      assert Issued(s, e);
    }
    forall w: Waker
      ensures Waking(s', w)
    {
      assert Waking(s, w);
    }
  }

  /** A held task that a thief took out of the run queue goes back to its end. */
  lemma RotateKeeps(s: State, n: nat, t: nat, p: nat)
    requires Sound(s, n) && Enabled(s, Rotate(t, p))
    ensures Sound(Next(s, Rotate(t, p)), n)
  {
    hide NoRepeats, Without;
    var s' := Move(s, t, Runnable(p), Runnable(p));
    MoveLinked(s, t, Runnable(p), Runnable(p));
    assert s'.tasks == s.tasks;
    SameTasks(s, s', n);
  }

  lemma SameTasks(s: State, s': State, n: nat)
    requires Sound(s, n) && s' == s.(queues := s'.queues)
    ensures forall t: nat :: Counted(s', n, t)
    ensures forall p: nat :: Running(s', p)
    ensures forall e: Entry :: Issued(s', e)
    ensures forall w: Waker :: Waking(s', w)
  {
    hide Linked, NoRepeats;
    forall t: nat
      ensures Counted(s', n, t)
    {
      assert Counted(s, n, t);
    }
    forall p: nat
      ensures Running(s', p)
    {
      assert Running(s, p);
    }
    forall e: Entry
      ensures Issued(s', e)
    {
      assert Issued(s, e);
    }
    forall w: Waker
      ensures Waking(s', w)
    {
      assert Waking(s, w);
    }
  }

  /** A wakeup succeeds exactly if its suspension has not been woken yet, and then the task is in that wait queue. */
  lemma WakesOnce(s: State, n: nat, w: Waker)
    requires Sound(s, n) && w in s.wakers
    ensures Current(s, w.entry) <==> w.entry !in s.woken
    ensures w.entry !in s.woken ==> At(s, w.entry.task, Waiting(w.proc)) && w.entry.task in Queue(s, Waiting(w.proc))
  {
    assert Waking(s, w) && Issued(s, w.entry) && Counted(s, n, w.entry.task);
  }

  /** The successful wakeup is logged, and no entry of the task is current any more. */
  lemma WakeLogs(s: State, n: nat, w: Waker)
    requires Sound(s, n) && w in s.wakers && w.entry !in s.woken && n + 1 < WORD
    ensures var s' := Next(s, WakeCommit(w));
            && (forall e: Entry :: Issued(s', e)) && (forall v: Waker :: Waking(s', v)) && NoRepeats(s'.woken)
  {
    hide Linked, Counted, Running;
    var s' := Next(s, WakeCommit(w));
    WakesOnce(s, n, w);
    assert Counted(s, n, w.entry.task) && Issued(s, w.entry);
    SmallIncrement(s, n, w.entry.task);
    forall e: Entry
      ensures Issued(s', e)
    {
      assert Issued(s, e);
    }
    forall v: Waker
      ensures Waking(s', v)
    {
      assert Waking(s, v) && Issued(s, v.entry);
    }
  }

  lemma SmallIncrement(s: State, n: nat, t: nat)
    requires Counted(s, n, t) && t in s.tasks && n + 1 < WORD
    ensures Increment(s.tasks[t].suspendId) == s.tasks[t].suspendId + 1 <= n + 1
  {
  }

  lemma WakeKeeps(s: State, n: nat, w: Waker)
    requires Sound(s, n) && w in s.wakers && w.entry !in s.woken && n + 1 < WORD
    ensures Sound(Next(s, WakeCommit(w)), n + 1)
  {
    hide Linked, Waking, NoRepeats;
    var t := w.entry.task;
    var s', after := Next(s, WakeCommit(w)), n + 1;
    WakesOnce(s, n, w);
    WakeLogs(s, n, w);
    assert Counted(s, n, t) && Issued(s, w.entry);
    MoveLinked(s, t, Waiting(w.proc), Runnable(w.proc));
    SameLinked(Move(s, t, Waiting(w.proc), Runnable(w.proc)), s');
    forall q: nat
      ensures Running(s', q)
    {
      assert Running(s, q);
    }
    forall x: nat
      ensures Counted(s', after, x)
    {
      assert Counted(s, n, x);
    }
  }

  /** A task that is done: the next one is chosen. */
  lemma FinishNextKeeps(s: State, n: nat, p: nat)
    requires Sound(s, n) && Enabled(s, FinishNext(p))
    ensures Sound(Next(s, FinishNext(p)), n)
  {
    hide NoRepeats, Without;
    var s' := Next(s, FinishNext(p));
    assert Running(s, p);
    SuccessorSpec(Queue(s, Runnable(p)), ProcOf(s, p).running);
    SameLinked(s, s');
    forall q: nat
      ensures Running(s', q)
    {
      assert Running(s, q);
    }
    forall x: nat
      ensures Counted(s', n, x)
    {
      assert Counted(s, n, x);
    }
    forall e: Entry
      ensures Issued(s', e)
    {
      assert Issued(s, e);
    }
    forall w: Waker
      ensures Waking(s', w)
    {
      assert Waking(s, w);
    }
  }

  /** It is unlinked. */
  lemma FinishEraseKeeps(s: State, n: nat, p: nat)
    requires Sound(s, n) && ProcOf(s, p).Ending?
    ensures Sound(Next(s, FinishErase(p)), n)
  {
    hide NoRepeats, Without;
    var t := ProcOf(s, p).running;
    var s' := Next(s, FinishErase(p));
    assert Running(s, p);
    MoveLinked(s, t, Runnable(p), Finished);
    SameLinked(Move(s, t, Runnable(p), Finished), s');
    NotMarking(s, t, Runnable(p));
    forall q: nat
      ensures Running(s', q)
    {
      assert Running(s, q);
    }
    forall x: nat
      ensures Counted(s', n, x)
    {
      assert Counted(s, n, x);
    }
    forall e: Entry
      ensures Issued(s', e)
    {
      assert Issued(s, e);
    }
    forall w: Waker
      ensures Waking(s', w)
    {
      assert Waking(s, w);
    }
  }

  /** A wakeup that gives up, or comes too late, changes nothing. */
  lemma DropKeeps(s: State, n: nat, w: Waker)
    requires Sound(s, n)
    ensures Sound(s.(wakers := s.wakers - {w}), n)
  {
    hide Linked, Issued;
    var s' := s.(wakers := s.wakers - {w});
    SameLinks(s, s', n);
    forall v: Waker
      ensures Waking(s', v)
    {
      assert Waking(s, v);
    }
  }

  lemma ReadKeeps(s: State, n: nat, e: Entry)
    requires Sound(s, n) && e in s.issued
    ensures Sound(Next(s, WakeRead(e)), n)
  {
    var s' := Next(s, WakeRead(e));
    SameLinks(s, s', n);
    forall v: Waker
      ensures Waking(s', v)
    {
      assert Waking(s, v);
    }
  }

  lemma SameLinks(s: State, s': State, n: nat)
    requires Sound(s, n) && s' == s.(wakers := s'.wakers)
    ensures Linked(s') && NoRepeats(s'.woken)
    ensures forall t: nat :: Counted(s', n, t)
    ensures forall p: nat :: Running(s', p)
    ensures forall e: Entry :: Issued(s', e)
  {
    assert forall place: Place :: Queue(s', place) == Queue(s, place);
    assert forall place: Place, t: nat :: At(s', t, place) <==> At(s, t, place);
    forall t: nat
      ensures Counted(s', n, t)
    {
      assert Counted(s, n, t);
    }
    forall p: nat
      ensures Running(s', p)
    {
      assert Running(s, p);
    }
    forall e: Entry
      ensures Issued(s', e)
    {
      assert Issued(s, e);
    }
  }

  lemma Widen(s: State, n: nat)
    requires Sound(s, n)
    ensures Sound(s, n + 1)
  {
    var after := n + 1;
    forall t: nat
      ensures Counted(s, after, t)
    {
      assert Counted(s, n, t);
    }
  }

  lemma StepKeeps(s: State, n: nat, step: Step)
    requires Sound(s, n) && Enabled(s, step) && n + 1 < WORD
    ensures Sound(Next(s, step), n + 1)
  {
    hide Counted, Issued, Waking, NoRepeats;
    match step
    case Spawn(t, p) =>
      SpawnKeeps(s, n, t, p);
      Widen(Next(s, step), n);
    case Run(p) =>
      assert Queue(s, Runnable(p))[0] in Queue(s, Runnable(p));
      SwitchKeeps(s, n, p, Some(Queue(s, Runnable(p))[0]));
      Widen(Next(s, step), n);
    case Yield(p) =>
      SuccessorSpec(Queue(s, Runnable(p)), ProcOf(s, p).running);
      SwitchKeeps(s, n, p, Successor(Queue(s, Runnable(p)), ProcOf(s, p).running));
      Widen(Next(s, step), n);
    case FinishNext(p) =>
      FinishNextKeeps(s, n, p);
      Widen(Next(s, step), n);
    case FinishErase(p) =>
      FinishEraseKeeps(s, n, p);
      Widen(Next(s, step), n);
    case FinishSwitch(p) =>
      assert Running(s, p);
      SwitchKeeps(s, n, p, ProcOf(s, p).next);
      Widen(Next(s, step), n);
    case SuspendMark(p) => MarkKeeps(s, n, p);
    case SuspendMove(p) =>
      SuspendKeeps(s, n, p);
      Widen(Next(s, step), n);
    case SwapOut(p) =>
      assert Running(s, p);
      SwitchKeeps(s, n, p, ProcOf(s, p).next);
      Widen(Next(s, step), n);
    case WakeRead(e) =>
      ReadKeeps(s, n, e);
      Widen(Next(s, step), n);
    case WakeGiveUp(w) =>
      DropKeeps(s, n, w);
      Widen(Next(s, step), n);
    case WakeCommit(w) =>
      WakesOnce(s, n, w);
      if Current(s, w.entry) {
        WakeKeeps(s, n, w);
      } else {
        DropKeeps(s, n, w);
        Widen(Next(s, step), n);
      }
    case Steal(t, from) =>
      RelinkKeeps(s, n, t, from, Stolen);
      Widen(Next(s, step), n);
    case Rotate(t, p) =>
      RotateKeeps(s, n, t, p);
      Widen(Next(s, step), n);
    case Deliver(t, q) =>
      RelinkKeeps(s, n, t, Stolen, New(q));
      Widen(Next(s, step), n);
  }

  // ------------------------------------------------------------ whole runs

  ghost predicate Legal(s: State, steps: seq<Step>)
    decreases steps
  {
    steps == [] || (Enabled(s, steps[0]) && Legal(Next(s, steps[0]), steps[1..]))
  }

  function Final(s: State, steps: seq<Step>): State
    requires Legal(s, steps)
    decreases steps
  {
    if steps == [] then s else Final(Next(s, steps[0]), steps[1..])
  }

  const START := State(map[], map[], map[], {}, {}, [])

  lemma {:induction false} RunKeeps(s: State, n: nat, steps: seq<Step>)
    requires Sound(s, n) && Legal(s, steps) && n + |steps| < WORD
    ensures Sound(Final(s, steps), n + |steps|)
    decreases steps
  {
    hide Sound, Enabled, Next;
    if steps != [] {
      StepKeeps(s, n, steps[0]);
      RunKeeps(Next(s, steps[0]), n + 1, steps[1..]);
    }
  }

  /** In every run of fewer than 2^64 steps the state stays sound, and no entry is ever woken twice. */
  lemma AnyRun(steps: seq<Step>)
    requires Legal(START, steps) && |steps| < WORD
    ensures Sound(Final(START, steps), |steps|) && NoRepeats(Final(START, steps).woken)
  {
    hide Sound, Legal, Final;
    StartSound();
    RunKeeps(START, 0, steps);
    WokenOnce(Final(START, steps), |steps|);
  }

  lemma StartSound()
    ensures Sound(START, 0)
  {
    hide NoRepeats;
    NoneRepeat();
    assert forall place: Place :: Queue(START, place) == [];
  }

  lemma NoneRepeat()
    ensures NoRepeats<nat>([]) && NoRepeats<Entry>([])
  {
  }

  lemma WokenOnce(s: State, n: nat)
    requires Sound(s, n)
    ensures NoRepeats(s.woken)
  {
  }

  /** However many wakeups race for one suspension, a wakeup returns true exactly if none has returned true before. */
  lemma WakeupResult(s: State, n: nat, w: Waker)
    requires Sound(s, n) && w in s.wakers && n + 1 < WORD
    ensures Next(s, WakeCommit(w)).woken == if w.entry in s.woken then s.woken else s.woken + [w.entry]
    ensures w.entry !in s.woken ==>
      w.entry.task in Queue(Next(s, WakeCommit(w)), Runnable(w.proc))
    ensures w.entry in s.woken ==>
      // Too late: the wakeup is over and has changed nothing, whether it notices before it has the lock or after.
      Next(s, WakeCommit(w)) == s.(wakers := s.wakers - {w}) == Next(s, WakeGiveUp(w))
  {
    WakesOnce(s, n, w);
    if w.entry !in s.woken {
      WakeKeeps(s, n, w);
      assert At(Next(s, WakeCommit(w)), w.entry.task, Runnable(w.proc));
    }
  }

  /** An entry of an earlier suspension has been woken, and can never end a later one. */
  lemma StaleEntry(s: State, n: nat, early: Entry, late: Entry)
    requires Sound(s, n) && early in s.issued && late in s.issued
    requires early.task == late.task && early.id < late.id
    ensures early in s.woken && !Current(s, early)
  {
    assert Issued(s, early) && Issued(s, late);
  }

  /** A task is linked at exactly one position of exactly one queue. */
  lemma OneQueue(s: State, n: nat, t: nat) returns (place: Place, i: nat)
    requires Sound(s, n) && t in s.tasks
    ensures i < |Queue(s, place)| && Queue(s, place)[i] == t
    ensures forall other: Place, j: nat :: j < |Queue(s, other)| && Queue(s, other)[j] == t ==> other == place && j == i
  {
    place := s.tasks[t].home;
    assert At(s, t, place);
    i :| i < |Queue(s, place)| && Queue(s, place)[i] == t;
    forall other: Place, j: nat | j < |Queue(s, other)| && Queue(s, other)[j] == t
      ensures other == place && j == i
    {
      assert t in Queue(s, other);
      assert At(s, t, other);
      assert NoRepeats(Queue(s, place));
    }
  }

  /** A suspended task is in the wait queue of its processor, with its entry given out and not woken. */
  lemma Suspended(s: State, n: nat, t: nat)
    requires Sound(s, n) && t in s.tasks && s.tasks[t].suspendId % 2 == 1 && !Marking(s, t)
    ensures var e := Entry(t, s.tasks[t].suspendId);
            s.tasks[t].proc.Some? && t in Queue(s, Waiting(s.tasks[t].proc.value)) && e in s.issued && e !in s.woken
  {
    assert Counted(s, n, t) && Issued(s, Entry(t, s.tasks[t].suspendId));
    assert At(s, t, s.tasks[t].home);
  }

  // ------------------------------------------------------------ what one actor achieves alone

  lemma First(s: State, step: Step, rest: seq<Step>)
    requires Enabled(s, step) && Legal(Next(s, step), rest)
    ensures Legal(s, [step] + rest) && Final(s, [step] + rest) == Final(Next(s, step), rest)
  {
    assert ([step] + rest)[1..] == rest;
  }

  lemma Two(s: State, a: Step, b: Step)
    requires Enabled(s, a) && Enabled(Next(s, a), b)
    ensures Legal(s, [a, b]) && Final(s, [a, b]) == Next(Next(s, a), b)
  {
    First(Next(s, a), b, []);
    First(s, a, [b] + []);
    assert [a] + ([b] + []) == [a, b];
  }

  lemma Three(s: State, a: Step, b: Step, c: Step)
    requires Enabled(s, a) && Enabled(Next(s, a), b) && Enabled(Next(Next(s, a), b), c)
    ensures Legal(s, [a, b, c]) && Final(s, [a, b, c]) == Next(Next(Next(s, a), b), c)
  {
    Two(Next(s, a), b, c);
    First(s, a, [b, c]);
    assert [a] + [b, c] == [a, b, c];
  }

  /** Moving a task to another place takes it out of the one queue and puts it last in the other. */
  lemma MoveQueues(s: State, t: nat, from: Place, to: Place)
    requires from != to
    ensures var m := Move(s, t, from, to);
            && Queue(m, from) == Without(Queue(s, from), t) && Queue(m, to) == Queue(s, to) + [t]
            && forall other: Place :: other != from && other != to ==> Queue(m, other) == Queue(s, other)
  {
  }

  /** An issued entry that has not been woken is that of a task asleep. */
  lemma NotWoken(s: State, n: nat, e: Entry)
    requires Sound(s, n) && e in s.issued && e !in s.woken
    ensures e.task in s.tasks && s.tasks[e.task].suspendId == e.id && s.tasks[e.task].proc.Some?
    ensures e.task in Queue(s, Waiting(s.tasks[e.task].proc.value))
  {
    hide Linked, NoRepeats;
    assert Issued(s, e) && Counted(s, n, e.task);
    Suspended(s, n, e.task);
  }

  /** Any waker that has an entry not woken yet can wake its task, alone: the wakeup is the first of this
      entry, and the task is linked last in its processor's run queue, and asleep no more. */
  lemma WakesUp(s: State, n: nat, e: Entry) returns (steps: seq<Step>, p: nat)
    requires Sound(s, n) && e in s.issued && e !in s.woken && n + 2 < WORD
    ensures e.task in s.tasks && s.tasks[e.task].proc == Some(p)
    ensures steps == [WakeRead(e), WakeCommit(Waker(e, p))] && Legal(s, steps)
    ensures var s' := Final(s, steps);
            && s'.woken == s.woken + [e]
            && e.task in Queue(s, Waiting(p)) && Queue(s', Waiting(p)) == Without(Queue(s, Waiting(p)), e.task)
            && Queue(s', Runnable(p)) == Queue(s, Runnable(p)) + [e.task]
            && s'.procs == s.procs
  {
    hide Sound, Linked, Issued, Counted, Running, Waking, NoRepeats, Without;
    NotWoken(s, n, e);
    p := s.tasks[e.task].proc.value;
    var w := Waker(e, p);
    steps := [WakeRead(e), WakeCommit(w)];
    Two(s, WakeRead(e), WakeCommit(w));
    var read := Next(s, WakeRead(e));
    var bumped := Bump(read.(wakers := read.wakers - {w}, woken := s.woken + [e]), e.task);
    MoveQueues(bumped, e.task, Waiting(p), Runnable(p));
    assert Final(s, steps) == Move(bumped, e.task, Waiting(p), Runnable(p));
  }

  /** The task linked after the i-th is the next one, if there is any. */
  lemma {:induction false} SuccessorAt(q: seq<nat>, i: nat)
    requires NoRepeats(q) && i < |q|
    ensures Successor(q, q[i]) == if i + 1 < |q| then Some(q[i + 1]) else None
  {
    if |q| >= 2 && i > 0 {
      assert forall j: nat :: j < |q[1..]| ==> q[1..][j] == q[j + 1];
      SuccessorAt(q[1..], i - 1);
    }
  }

  /** A processor that switches to a task runs it, and relinks nothing. */
  lemma Switched(s: State, p: nat, next: Option<nat>)
    ensures var s' := SwitchTo(s, p, next);
            && s'.queues == s.queues
            && ProcOf(s', p) == (match next case None => Idle case Some(t) => Active(t))
  {
  }

  /** A processor alone runs the tasks of its run queue in turn, from the first to the last, and is idle then. */
  lemma {:induction false} Turns(s: State, n: nat, p: nat, i: nat) returns (steps: seq<Step>)
    requires Sound(s, n) && n + |Queue(s, Runnable(p))| - i + 1 < WORD
    requires i < |Queue(s, Runnable(p))| && ProcOf(s, p) == Active(Queue(s, Runnable(p))[i])
    ensures Legal(s, steps) && |steps| == |Queue(s, Runnable(p))| - i
    ensures forall k: nat :: k < |steps| ==> steps[k] == Yield(p)
    ensures forall k: nat :: k < |steps| ==>
              Legal(s, steps[..k]) && ProcOf(Final(s, steps[..k]), p) == Active(Queue(s, Runnable(p))[i + k])
    ensures Final(s, steps).queues == s.queues && ProcOf(Final(s, steps), p) == Idle
    decreases |Queue(s, Runnable(p))| - i
  {
    hide Sound, Linked, NoRepeats, SwitchTo;
    var q := Queue(s, Runnable(p));
    RunQueue(s, n, p);
    SuccessorAt(q, i);
    var s' := Next(s, Yield(p));
    Switched(s, p, Successor(q, q[i]));
    if i + 1 == |q| {
      First(s, Yield(p), []);
      steps := [Yield(p)] + [];
    } else {
      StepKeeps(s, n, Yield(p));
      var rest := Turns(s', n + 1, p, i + 1);
      First(s, Yield(p), rest);
      steps := [Yield(p)] + rest;
      forall k: nat | 0 < k < |steps|
        ensures Legal(s, steps[..k]) && ProcOf(Final(s, steps[..k]), p) == Active(q[i + k])
      {
        assert steps[..k] == [Yield(p)] + rest[..k - 1];
        First(s, Yield(p), rest[..k - 1]);
      }
    }
  }

  lemma RunQueue(s: State, n: nat, p: nat)
    requires Sound(s, n)
    ensures NoRepeats(Queue(s, Runnable(p)))
  {
  }

  /** A running task alone goes to sleep: its number goes up by one, it is linked last in the wait queue and
      no more in the run queue, its new entry is given out and not woken, and the processor goes on with
      the task that was linked after it. */
  lemma GoesToSleep(s: State, n: nat, p: nat, i: nat) returns (steps: seq<Step>, e: Entry)
    requires Sound(s, n) && n + 4 < WORD
    requires i < |Queue(s, Runnable(p))| && ProcOf(s, p) == Active(Queue(s, Runnable(p))[i])
    ensures steps == [SuspendMark(p), SuspendMove(p), SwapOut(p)] && Legal(s, steps)
    ensures var s', q, t := Final(s, steps), Queue(s, Runnable(p)), Queue(s, Runnable(p))[i];
            && t in s.tasks && e == Entry(t, s.tasks[t].suspendId + 1)
            && e !in s.issued && s'.issued == s.issued + {e} && e !in s'.woken && s'.woken == s.woken
            && Queue(s', Waiting(p)) == Queue(s, Waiting(p)) + [t] && Queue(s', Runnable(p)) == Without(q, t)
            && ProcOf(s', p) == (if i + 1 < |q| then Active(q[i + 1]) else Idle)
  {
    hide Sound, Linked, NoRepeats, Without;
    var q := Queue(s, Runnable(p));
    var t := q[i];
    steps := [SuspendMark(p), SuspendMove(p), SwapOut(p)];
    ActiveTask(s, n, p);
    RunQueue(s, n, p);
    SuccessorAt(q, i);
    var marked := Next(s, SuspendMark(p));
    e := Entry(t, s.tasks[t].suspendId + 1);
    assert marked.queues == s.queues && ProcOf(marked, p) == Marked(t) && TaskOf(marked, t).suspendId == e.id;
    MoveQueues(marked, t, Runnable(p), Waiting(p));
    var moved := Next(marked, SuspendMove(p));
    Three(s, SuspendMark(p), SuspendMove(p), SwapOut(p));
    Switched(moved, p, ProcOf(moved, p).next);
  }

  /** The running task is known, and its next number is new. */
  lemma ActiveTask(s: State, n: nat, p: nat)
    requires Sound(s, n) && ProcOf(s, p).Active? && n + 1 < WORD
    ensures var t := ProcOf(s, p).running;
            && t in s.tasks && s.tasks[t].suspendId < WORD - 1
            && forall e: Entry :: e.task == t && e.id > s.tasks[t].suspendId ==> e !in s.issued && e !in s.woken
  {
    hide Linked, NoRepeats;
    var t := ProcOf(s, p).running;
    assert Running(s, p) && Counted(s, n, t);
    forall e: Entry | e.task == t && e.id > s.tasks[t].suspendId
      ensures e !in s.issued && e !in s.woken
    {
      assert Issued(s, e);
    }
  }

  /** A task that is done is linked in no run queue any more, and the processor goes on with the one after it. */
  lemma Finishes(s: State, n: nat, p: nat, i: nat) returns (steps: seq<Step>)
    requires Sound(s, n) && i < |Queue(s, Runnable(p))| && ProcOf(s, p) == Active(Queue(s, Runnable(p))[i])
    ensures steps == [FinishNext(p), FinishErase(p), FinishSwitch(p)] && Legal(s, steps)
    ensures var s', q := Final(s, steps), Queue(s, Runnable(p));
            && Queue(s', Runnable(p)) == Without(q, q[i]) && Queue(s', Finished) == Queue(s, Finished) + [q[i]]
            && ProcOf(s', p) == (if i + 1 < |q| then Active(q[i + 1]) else Idle)
  {
    hide Sound, Linked, NoRepeats, Without;
    var q := Queue(s, Runnable(p));
    steps := [FinishNext(p), FinishErase(p), FinishSwitch(p)];
    RunQueue(s, n, p);
    SuccessorAt(q, i);
    var ending := Next(s, FinishNext(p));
    assert ending.queues == s.queues && ProcOf(ending, p).Ending?;
    var proc := ProcOf(ending, p);
    MoveQueues(ending.(procs := ending.procs[p := Ended(proc.running, proc.next)]), q[i], Runnable(p), Finished);
    var ended := Next(ending, FinishErase(p));
    Three(s, FinishNext(p), FinishErase(p), FinishSwitch(p));
    Switched(ended, p, ProcOf(ended, p).next);
  }

  /** A new task is linked last in a run queue, and an idle processor begins with the first one. */
  lemma Starts(s: State, t: nat, p: nat) returns (steps: seq<Step>)
    requires t !in s.tasks && ProcOf(s, p).Idle?
    ensures steps == [Spawn(t, p), Run(p)] && Legal(s, steps)
    ensures var s', q := Final(s, steps), Queue(s, Runnable(p)) + [t];
            && Queue(s', Runnable(p)) == q && ProcOf(s', p) == Active(q[0])
            && t in s'.tasks && s'.tasks[t].suspendId == 0
  {
    steps := [Spawn(t, p), Run(p)];
    var spawned := Next(s, Spawn(t, p));
    var q := Queue(s, Runnable(p)) + [t];
    assert Queue(spawned, Runnable(p)) == q;
    Switched(spawned, p, Some(q[0]));
    Two(s, Spawn(t, p), Run(p));
  }

  /** A held task that a thief puts back is linked last. */
  lemma Rotated(s: State, t: nat, p: nat)
    requires Enabled(s, Rotate(t, p))
    ensures var s' := Next(s, Rotate(t, p));
            && Queue(s', Runnable(p)) == Without(Queue(s, Runnable(p)), t) + [t]
            && (forall other: Place :: other != Runnable(p) ==> Queue(s', other) == Queue(s, other))
            && s'.procs == s.procs
  {
  }

  /** A thief alone brings a task that no processor holds from one processor to another. */
  lemma Brings(s: State, t: nat, from: Place, q: nat) returns (steps: seq<Step>)
    requires Enabled(s, Steal(t, from)) && from != New(q)
    ensures steps == [Steal(t, from), Deliver(t, q)] && Legal(s, steps)
    ensures var s' := Final(s, steps);
            && Queue(s', from) == Without(Queue(s, from), t) && Queue(s', New(q)) == Queue(s, New(q)) + [t]
            && s'.procs == s.procs && s'.woken == s.woken && s'.issued == s.issued
  {
    hide Without;
    steps := [Steal(t, from), Deliver(t, q)];
    var stolen := Next(s, Steal(t, from));
    MoveQueues(s, t, from, Stolen);
    MoveQueues(stolen, t, Stolen, New(q));
    Two(s, Steal(t, from), Deliver(t, q));
  }
}

/// The reader/writer lock: a monitor with one condition variable for readers and
/// one for writers. Each stretch under the internal lock is one call here; a
/// thread that waits falls asleep at its end, and takes the internal lock again
/// some time after it was woken. Any thread may come in between, and a sleeping
/// thread may wake for no reason.
module ReaderWriterLocks {

  datatype Phase = Outside | ReadAsleep | ReadAwake | Reading | WriteAsleep | WriteAwake | Writing

  datatype View = View(readers: int, writers: int, waiting: int, threads: map<nat, Phase>)

  datatype Op = LockRead(t: nat) | UnlockRead(t: nat) | LockWrite(t: nat) | UnlockWrite(t: nat) | WakeUp(t: nat)

  function PhaseOf(threads: map<nat, Phase>, t: nat): Phase {
    if t in threads then threads[t] else Outside
  }

  function In(threads: map<nat, Phase>, phase: Phase): set<nat> {
    set t | t in threads && threads[t] == phase
  }

  /** How many threads are in a phase. */
  function Count(threads: map<nat, Phase>, phase: Phase): nat {
    |In(threads, phase)|
  }

  /** The three counters count what they are named after. */
  ghost predicate Counted(v: View) {
    && v.readers == Count(v.threads, Reading)
    && v.writers == Count(v.threads, Writing)
    && v.waiting == Count(v.threads, WriteAsleep) + Count(v.threads, WriteAwake)
  }

  /** A writer excludes everyone else. */
  ghost predicate Exclusive(v: View) {
    Count(v.threads, Writing) == 0 || (Count(v.threads, Writing) == 1 && Count(v.threads, Reading) == 0)
  }

  /** Nobody sleeps in vain. */
  ghost predicate NoneForgotten(v: View) {
    && (Count(v.threads, ReadAsleep) > 0 ==> Count(v.threads, Writing) == 1)
    && (Count(v.threads, WriteAsleep) > 0 && Count(v.threads, Reading) == 0 && Count(v.threads, Writing) == 0 ==>
          Count(v.threads, WriteAwake) > 0)
  }

  ghost predicate Sound(v: View) {
    Counted(v) && Exclusive(v) && NoneForgotten(v)
  }

  lemma ShiftSets(threads: map<nat, Phase>, t: nat, to: Phase, phase: Phase)
    requires PhaseOf(threads, t) != to && phase != Outside
    ensures t in In(threads, phase) <==> phase == PhaseOf(threads, t)
    ensures t in In(threads[t := to], phase) <==> phase == to
    ensures In(threads[t := to], phase) - {t} == In(threads, phase) - {t}
  {
  }

  /** Moving a thread to another phase changes two counts by one. */
  lemma ShiftIn(threads: map<nat, Phase>, t: nat, to: Phase, phase: Phase)
    requires PhaseOf(threads, t) != to && phase != Outside
    ensures Count(threads[t := to], phase) + (if phase == PhaseOf(threads, t) then 1 else 0)
         == Count(threads, phase) + (if phase == to then 1 else 0)
  {
    hide In, PhaseOf;
    ShiftSets(threads, t, to, phase);
    var before, after := In(threads, phase), In(threads[t := to], phase);
    assert |before - {t}| == |before| - if t in before then 1 else 0;
    assert |after - {t}| == |after| - if t in after then 1 else 0;
  }

  lemma Shift(threads: map<nat, Phase>, t: nat, to: Phase)
    requires PhaseOf(threads, t) != to
    ensures forall phase: Phase :: phase != Outside ==>
      Count(threads[t := to], phase) + (if phase == PhaseOf(threads, t) then 1 else 0)
      == Count(threads, phase) + (if phase == to then 1 else 0)
  {
    hide Count;
    forall phase: Phase | phase != Outside
      ensures Count(threads[t := to], phase) + (if phase == PhaseOf(threads, t) then 1 else 0)
           == Count(threads, phase) + (if phase == to then 1 else 0)
    {
      ShiftIn(threads, t, to, phase);
    }
  }

  lemma NoThreads(phase: Phase)
    ensures Count(map[], phase) == 0
  {
    assert In(map[], phase) == {};
  }

  lemma CountedOne(threads: map<nat, Phase>, t: nat)
    requires t in threads
    ensures Count(threads, threads[t]) > 0
  {
    assert t in In(threads, threads[t]);
  }

  lemma Someone(threads: map<nat, Phase>, phase: Phase) returns (t: nat)
    requires Count(threads, phase) > 0
    ensures t in threads && threads[t] == phase
  {
    assert In(threads, phase) != {};
    t :| t in In(threads, phase);
  }

  function WakeReaders(threads: map<nat, Phase>): map<nat, Phase> {
    map t | t in threads :: if threads[t] == ReadAsleep then ReadAwake else threads[t]
  }

  lemma WakeReadersCounts(threads: map<nat, Phase>)
    ensures Count(WakeReaders(threads), ReadAsleep) == 0
    ensures forall phase: Phase :: phase != ReadAsleep && phase != ReadAwake ==>
      Count(WakeReaders(threads), phase) == Count(threads, phase)
  {
    var woken := WakeReaders(threads);
    assert In(woken, ReadAsleep) == {};
    forall phase: Phase | phase != ReadAsleep && phase != ReadAwake
      ensures Count(woken, phase) == Count(threads, phase)
    {
      assert In(woken, phase) == In(threads, phase);
    }
  }

  /** One sleeping writer has been woken, if any slept. */
  ghost predicate OneWoken(before: map<nat, Phase>, after: map<nat, Phase>) {
    if Count(before, WriteAsleep) == 0 then after == before
    else exists t: nat :: t in before && before[t] == WriteAsleep && after == before[t := WriteAwake]
  }

  /** The order in which the writer and the readers are woken makes no difference. */
  lemma WakeCommutes(before: map<nat, Phase>, after: map<nat, Phase>)
    requires OneWoken(before, after)
    ensures OneWoken(WakeReaders(before), WakeReaders(after))
  {
    WakeReadersCounts(before);
    if Count(before, WriteAsleep) > 0 {
      var t: nat :| t in before && before[t] == WriteAsleep && after == before[t := WriteAwake];
      var woken := WakeReaders(before);
      assert t in woken && woken[t] == WriteAsleep;
      assert WakeReaders(after) == woken[t := WriteAwake];
    }
  }

  // ------------------------------------------------------------ one stretch under the internal lock

  /** An operation a thread may begin: it unlocks only what it holds, and wakes only from sleep. */
  predicate Allowed(threads: map<nat, Phase>, op: Op) {
    match op
    case LockRead(t) => PhaseOf(threads, t) in {Outside, ReadAwake}
    case UnlockRead(t) => PhaseOf(threads, t) == Reading
    case LockWrite(t) => PhaseOf(threads, t) in {Outside, WriteAwake}
    case UnlockWrite(t) => PhaseOf(threads, t) == Writing
    case WakeUp(t) => PhaseOf(threads, t) in {ReadAsleep, WriteAsleep}
  }

  /** One sleeping writer, whichever it is, is woken, if the counter says that a writer waits. */
  ghost predicate Notified(v: View, v': View) {
    if v.waiting > 0 then v' == v.(threads := v'.threads) && OneWoken(v.threads, v'.threads) else v' == v
  }

  function Moved(v: View, t: nat, to: Phase): View {
    v.(threads := v.threads[t := to])
  }

  /** What one operation does. */
  ghost predicate Step(v: View, op: Op, v': View) {
    match op
    case LockRead(t) =>
      v' == if v.writers > 0 then Moved(v, t, ReadAsleep) else Moved(v, t, Reading).(readers := v.readers + 1)
    case UnlockRead(t) =>
      var left := Moved(v, t, Outside).(readers := v.readers - 1);
      if left.readers == 0 then Notified(left, v') else v' == left
    case LockWrite(t) =>
      var waiting := if PhaseOf(v.threads, t) == Outside then v.waiting + 1 else v.waiting;
      v' == if v.readers > 0 || v.writers > 0 then Moved(v, t, WriteAsleep).(waiting := waiting)
            else Moved(v, t, Writing).(writers := v.writers + 1, waiting := waiting - 1)
    case UnlockWrite(t) =>
      var left := Moved(v, t, Outside).(writers := v.writers - 1);
      Notified(left.(threads := WakeReaders(left.threads)), v')
    case WakeUp(t) =>
      v' == Moved(v, t, if PhaseOf(v.threads, t) == ReadAsleep then ReadAwake else WriteAwake)
  }

  /** Notifying changes none of the counts but those of the writers that wait. */
  lemma NotifiedCounts(v: View, v': View)
    requires Notified(v, v') && v.waiting == Count(v.threads, WriteAsleep) + Count(v.threads, WriteAwake)
    ensures v' == v.(threads := v'.threads)
    ensures forall phase: Phase :: phase !in {Outside, WriteAsleep, WriteAwake} ==>
      Count(v'.threads, phase) == Count(v.threads, phase)
    ensures v.waiting == Count(v'.threads, WriteAsleep) + Count(v'.threads, WriteAwake)
    ensures Count(v'.threads, WriteAsleep) > 0 ==> Count(v'.threads, WriteAwake) > 0
  {
    hide Count;
    if v.waiting > 0 && Count(v.threads, WriteAsleep) > 0 {
      var t: nat :| t in v.threads && v.threads[t] == WriteAsleep && v'.threads == v.threads[t := WriteAwake];
      Shift(v.threads, t, WriteAwake);
    }
  }

  /** Every operation of every thread keeps the lock sound. */
  lemma StepKeeps(v: View, op: Op, v': View)
    requires Sound(v) && Allowed(v.threads, op) && Step(v, op, v')
    ensures Sound(v')
  {
    hide Count, Notified;
    match op
    case LockRead(t) =>
      Shift(v.threads, t, if v.writers > 0 then ReadAsleep else Reading);
    case UnlockRead(t) =>
      Shift(v.threads, t, Outside);
      var left := Moved(v, t, Outside).(readers := v.readers - 1);
      if left.readers == 0 {
        NotifiedCounts(left, v');
      }
    case LockWrite(t) =>
      Shift(v.threads, t, if v.readers > 0 || v.writers > 0 then WriteAsleep else Writing);
    case UnlockWrite(t) =>
      Shift(v.threads, t, Outside);
      var left := Moved(v, t, Outside).(writers := v.writers - 1);
      WakeReadersCounts(left.threads);
      NotifiedCounts(left.(threads := WakeReaders(left.threads)), v');
    case WakeUp(t) =>
      Shift(v.threads, t, if PhaseOf(v.threads, t) == ReadAsleep then ReadAwake else WriteAwake);
  }

  // ------------------------------------------------------------ whole runs

  /** The threads attempt the operations in turn; one that a thread may not begin does not take place. */
  ghost predicate Trace(views: seq<View>, ops: seq<Op>) {
    && |views| == |ops| + 1 && views[0] == View(0, 0, 0, map[])
    && forall i: nat :: i < |ops| ==>
         if Allowed(views[i].threads, ops[i]) then Step(views[i], ops[i], views[i + 1]) else views[i + 1] == views[i]
  }

  lemma StartSound()
    ensures Sound(View(0, 0, 0, map[]))
  {
    NoThreads(Reading);
    NoThreads(Writing);
    NoThreads(ReadAsleep);
    NoThreads(WriteAsleep);
    NoThreads(WriteAwake);
  }

  /** Whatever any number of threads do, and whenever they wake, the lock is sound at every moment. */
  lemma {:induction false} AnyRun(views: seq<View>, ops: seq<Op>, i: nat)
    requires Trace(views, ops) && i <= |ops|
    ensures Sound(views[i])
  {
    hide Sound, Step;
    if i == 0 {
      StartSound();
    } else {
      AnyRun(views, ops, i - 1);
      if Allowed(views[i - 1].threads, ops[i - 1]) {
        StepKeeps(views[i - 1], ops[i - 1], views[i]);
      }
    }
  }

  class ReaderWriterLock {
    var readersCount: int
    var writersCount: int
    var writersWaiting: int
    var threads: map<nat, Phase>

    function State(): View
      reads this
    {
      View(readersCount, writersCount, writersWaiting, threads)
    }

    constructor ()
      ensures State() == View(0, 0, 0, map[])
    {
      readersCount, writersCount, writersWaiting, threads := 0, 0, 0, map[];
    }

    /** A reader comes, or comes back from sleep: it takes the lock unless a writer holds it. */
    method LockRead(t: nat)
      requires Sound(State()) && Allowed(threads, Op.LockRead(t))
      modifies this
      ensures Step(old(State()), Op.LockRead(t), State()) && Sound(State())
      ensures threads == old(threads)[t := if Count(old(threads), Writing) == 0 then Reading else ReadAsleep]
    {
      hide Count;
      ghost var v := State();
      if 0 < writersCount {
        threads := threads[t := ReadAsleep];
      } else {
        readersCount := readersCount + 1;
        threads := threads[t := Reading];
      }
      StepKeeps(v, Op.LockRead(t), State());
    }

    /** Wakes one sleeping writer, whichever it is, if there is one. */
    method NotifyWriter()
      modifies this`threads
      ensures OneWoken(old(threads), threads)
    {
      if t: nat :| t in threads && threads[t] == WriteAsleep {
        CountedOne(threads, t);
        threads := threads[t := WriteAwake];
      } else {
        assert In(threads, WriteAsleep) == {};
      }
    }

    /** The last reader to leave wakes a waiting writer. */
    method UnlockRead(t: nat)
      requires Sound(State()) && Allowed(threads, Op.UnlockRead(t))
      modifies this
      ensures Step(old(State()), Op.UnlockRead(t), State()) && Sound(State())
      ensures if Count(old(threads), Reading) == 1 then OneWoken(old(threads)[t := Outside], threads)
              else threads == old(threads)[t := Outside]
    {
      hide Count, OneWoken;
      ghost var v := State();
      Shift(threads, t, Outside);
      threads := threads[t := Outside];
      readersCount := readersCount - 1;
      NobodyWaits(State());
      if 0 == readersCount && 0 < writersWaiting {
        NotifyWriter();
      }
      StepKeeps(v, Op.UnlockRead(t), State());
    }

    /** A writer comes, or comes back from sleep: it takes the lock if nobody holds it. */
    method LockWrite(t: nat)
      requires Sound(State()) && Allowed(threads, Op.LockWrite(t))
      modifies this
      ensures Step(old(State()), Op.LockWrite(t), State()) && Sound(State())
      ensures var free := Count(old(threads), Reading) == 0 && Count(old(threads), Writing) == 0;
              threads == old(threads)[t := if free then Writing else WriteAsleep]
    {
      hide Count;
      ghost var v := State();
      if PhaseOf(threads, t) == Outside {
        writersWaiting := writersWaiting + 1;
      }
      if 0 < readersCount || 0 < writersCount {
        threads := threads[t := WriteAsleep];
      } else {
        writersCount := writersCount + 1;
        writersWaiting := writersWaiting - 1;
        threads := threads[t := Writing];
      }
      StepKeeps(v, Op.LockWrite(t), State());
    }

    /** The writer leaves: it wakes one waiting writer, and every reader. */
    method UnlockWrite(t: nat)
      requires Sound(State()) && Allowed(threads, Op.UnlockWrite(t))
      modifies this
      ensures Step(old(State()), Op.UnlockWrite(t), State()) && Sound(State())
      ensures OneWoken(WakeReaders(old(threads)[t := Outside]), threads)
    {
      hide Count, OneWoken;
      ghost var v := State();
      Shift(threads, t, Outside);
      threads := threads[t := Outside];
      writersCount := writersCount - 1;
      ghost var left := State();
      WakeReadersCounts(threads);
      NobodyWaits(left);
      NobodyWaits(left.(threads := WakeReaders(left.threads)));
      if 0 < writersWaiting {
        NotifyWriter();
        WakeCommutes(left.threads, threads);
      }
      threads := WakeReaders(threads);
      StepKeeps(v, Op.UnlockWrite(t), State());
    }

    /** A sleeping thread wakes although nobody notified it. */
    method WakeUp(t: nat)
      requires Sound(State()) && Allowed(threads, Op.WakeUp(t))
      modifies this`threads
      ensures Step(old(State()), Op.WakeUp(t), State()) && Sound(State())
      ensures threads == old(threads)[t := if old(threads)[t] == ReadAsleep then ReadAwake else WriteAwake]
    {
      ghost var v := State();
      threads := threads[t := if threads[t] == ReadAsleep then ReadAwake else WriteAwake];
      StepKeeps(v, Op.WakeUp(t), State());
    }
  }

  /** With nobody waiting there is nobody to wake. */
  lemma NobodyWaits(v: View)
    ensures Count(v.threads, WriteAsleep) == 0 ==> OneWoken(v.threads, v.threads)
  {
  }

  /** What the invariant says of the threads: mutual exclusion, and nobody sleeping in vain. */
  lemma Exclusion(v: View, t: nat, u: nat)
    requires Sound(v) && t != u && PhaseOf(v.threads, t) == Writing
    ensures PhaseOf(v.threads, u) !in {Reading, Writing}
  {
    var both := {t, u};
    assert t in In(v.threads, Writing);
    assert PhaseOf(v.threads, u) == Reading ==> u in In(v.threads, Reading);
    if PhaseOf(v.threads, u) == Writing {
      Cardinality(both, In(v.threads, Writing));
    }
  }

  lemma Cardinality(a: set<nat>, b: set<nat>)
    requires a <= b
    ensures |a| <= |b|
  {
    assert b == a + (b - a);
  }

  /** A reader sleeps only while a writer holds the lock, and a writer on a free lock only if another is awake. */
  lemma SleepersHaveCause(v: View, t: nat) returns (cause: nat)
    requires Sound(v) && PhaseOf(v.threads, t) in {ReadAsleep, WriteAsleep}
    ensures PhaseOf(v.threads, t) == ReadAsleep ==> PhaseOf(v.threads, cause) == Writing
    ensures PhaseOf(v.threads, cause) in {Reading, Writing, WriteAwake}
  {
    hide Count;
    CountedOne(v.threads, t);
    if Count(v.threads, Writing) > 0 {
      cause := Someone(v.threads, Writing);
    } else if Count(v.threads, Reading) > 0 {
      cause := Someone(v.threads, Reading);
    } else {
      cause := Someone(v.threads, WriteAwake);
    }
  }

  // ------------------------------------------------------------ no deadlock

  /** How far the threads are from having left, all together. */
  function Rank(v: View): nat {
    3 * (Count(v.threads, ReadAsleep) + Count(v.threads, WriteAsleep))
    + 2 * (Count(v.threads, ReadAwake) + Count(v.threads, WriteAwake))
    + Count(v.threads, Reading) + Count(v.threads, Writing)
  }

  /** Waking all readers moves them from one phase to the other. */
  lemma WokenReaders(threads: map<nat, Phase>)
    ensures Count(WakeReaders(threads), ReadAwake) == Count(threads, ReadAwake) + Count(threads, ReadAsleep)
  {
    var awake, asleep := In(threads, ReadAwake), In(threads, ReadAsleep);
    assert In(WakeReaders(threads), ReadAwake) == awake + asleep && awake !! asleep;
  }

  lemma NotifiedRank(v: View, v': View)
    requires Notified(v, v')
    ensures Rank(v') <= Rank(v)
  {
    hide Count;
    if v.waiting > 0 && Count(v.threads, WriteAsleep) > 0 {
      var t: nat :| t in v.threads && v.threads[t] == WriteAsleep && v'.threads == v.threads[t := WriteAwake];
      Shift(v.threads, t, WriteAwake);
    }
  }

  /** Leaving, whoever is woken by it, brings the end nearer. */
  lemma LeaveNearer(v: View, op: Op, v': View)
    requires Sound(v) && Allowed(v.threads, op) && (op.UnlockRead? || op.UnlockWrite?) && Step(v, op, v')
    ensures Rank(v') < Rank(v)
  {
    hide Count, Notified;
    Shift(v.threads, op.t, Outside);
    match op
    case UnlockRead(t) =>
      var left := Moved(v, t, Outside).(readers := v.readers - 1);
      if left.readers == 0 {
        NotifiedRank(left, v');
      }
    case UnlockWrite(t) =>
      var left := Moved(v, t, Outside).(writers := v.writers - 1);
      WakeReadersCounts(left.threads);
      WokenReaders(left.threads);
      NotifiedRank(left.(threads := WakeReaders(left.threads)), v');
    case _ =>
  }

  /** So does taking a lock that is free. */
  lemma EnterNearer(v: View, op: Op, v': View)
    requires Sound(v) && Allowed(v.threads, op) && Step(v, op, v')
    requires op.LockRead? || op.LockWrite?
    requires v.readers == 0 && v.writers == 0 && PhaseOf(v.threads, op.t) != Outside
    ensures Rank(v') < Rank(v)
  {
    hide Count;
    Shift(v.threads, op.t, if op.LockRead? then Reading else Writing);
  }

  /** Unless all threads have left, one can do something that brings the end nearer, whoever is woken by it:
      nobody waits for ever if those who hold the lock let go of it. */
  lemma NoDeadlock(v: View) returns (op: Op)
    requires Sound(v) && Rank(v) > 0
    ensures Allowed(v.threads, op) && forall v': View :: Step(v, op, v') ==> Rank(v') < Rank(v)
  {
    hide Count, Step;
    if Count(v.threads, Writing) > 0 {
      var t := Someone(v.threads, Writing);
      op := UnlockWrite(t);
    } else if Count(v.threads, Reading) > 0 {
      var t := Someone(v.threads, Reading);
      op := UnlockRead(t);
    } else if Count(v.threads, ReadAwake) > 0 {
      var t := Someone(v.threads, ReadAwake);
      op := LockRead(t);
    } else {
      var t := Someone(v.threads, WriteAwake);
      op := LockWrite(t);
    }
    forall v': View | Step(v, op, v')
      ensures Rank(v') < Rank(v)
    {
      if op.UnlockWrite? || op.UnlockRead? {
        LeaveNearer(v, op, v');
      } else {
        EnterNearer(v, op, v');
      }
    }
  }

  /** The lock, driven by any operations, goes through such a trace. */
  method Play(ops: seq<Op>) returns (lock: ReaderWriterLock, ghost views: seq<View>)
    ensures Trace(views, ops) && lock.State() == views[|ops|]
  {
    hide Sound, Step, Allowed;
    lock := new ReaderWriterLock();
    StartSound();
    views := [lock.State()];
    for i := 0 to |ops|
      invariant fresh(lock) && Sound(lock.State())
      invariant Trace(views, ops[..i]) && lock.State() == views[i]
    {
      assert ops[..i + 1][..i] == ops[..i];
      ghost var was := views;
      if Allowed(lock.threads, ops[i]) {
        Perform(lock, ops[i]);
      }
      views := views + [lock.State()];
      assert forall j: nat :: j < i ==> ops[..i][j] == ops[..i + 1][j] && views[j + 1] == was[j + 1];
    }
    assert ops[..|ops|] == ops;
  }

  method Perform(lock: ReaderWriterLock, op: Op)
    requires Sound(lock.State()) && Allowed(lock.threads, op)
    modifies lock
    ensures Sound(lock.State()) && Step(old(lock.State()), op, lock.State())
  {
    hide Sound, Step;
    match op {
      case LockRead(t) => lock.LockRead(t);
      case UnlockRead(t) => lock.UnlockRead(t);
      case LockWrite(t) => lock.LockWrite(t);
      case UnlockWrite(t) => lock.UnlockWrite(t);
      case WakeUp(t) => lock.WakeUp(t);
    }
  }
}

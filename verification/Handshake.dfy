/// The condition variable's handshake between one waiting coroutine and the
/// notifier that took its entry from the queue, without a deadline. Each access
/// to a shared word is one step, and the two sides interleave freely.
module Handshake {

  /** The entry's flag word. */
  datatype Flags = Flags(suspendBegin: bool, suspendEnd: bool, wakeupBegin: bool, wakeupEnd: bool)

  /** Where the waiting coroutine stands. */
  datatype Waiter =
    | Load
    | Decide(flag: Flags)
    | Swap(flag: Flags)
    | Suspend(flag: Flags)
    | Record(flag: Flags)
    | Publish(flag: Flags)
    | Yield
    | CheckTimeout
    | AwaitWakeupEnd
    | Returned(timeout: bool)

  /** Where the notifier stands. */
  datatype Notifier =
    | LoadFlag
    | Inspect(flag: Flags)
    | TakeLock(flag: Flags)
    | RunFunctor(flag: Flags)
    | PublishEnd(flag: Flags)
    | AwaitSuspendEnd
    | TakeLockAsleep
    | Wake
    | Notified(ok: bool)

  /**
   * `coroEntry` says whether the suspend entry has been stored; `asleep`, that the coroutine is
   * suspended and not yet woken; `runs` counts the functor's runs.
   */
  datatype State = State(
    flags: Flags, noTimeoutLock: bool, coroEntry: bool, asleep: bool, runs: nat,
    waiter: Waiter, spins: nat, notifier: Notifier)

  /** One step of one side; a weak compare-and-swap may fail although the word is as expected. */
  datatype Step = WaiterStep(spurious: bool) | NotifierStep(spurious: bool)

  const QUIET := Flags(false, false, false, false)

  const START := State(QUIET, false, false, false, 0, Load, 0, LoadFlag)

  predicate Enabled(s: State, step: Step) {
    match step
    case WaiterStep(_) =>
      match s.waiter {
        case Yield => !s.asleep
        case AwaitWakeupEnd => s.flags.wakeupEnd
        case Returned(_) => false
        case _ => true
      }
    case NotifierStep(_) =>
      match s.notifier {
        case AwaitSuspendEnd => s.flags.suspendEnd
        case Notified(_) => false
        case _ => true
      }
  }

  function StepWaiter(s: State, spurious: bool): State {
    match s.waiter
    case Load => s.(waiter := Decide(s.flags))
    case Decide(flag) =>
      if flag.wakeupBegin then s.(waiter := AwaitWakeupEnd)
      else if s.spins + 1 <= 1 then s.(waiter := Load, spins := s.spins + 1)
      else s.(waiter := Swap(flag), spins := s.spins + 1)
    case Swap(flag) =>
      if s.flags == flag && !spurious
      then s.(flags := flag.(suspendBegin := true),
              waiter := Suspend(flag.(suspendBegin := true, suspendEnd := true)))
      else s.(waiter := Load)
    case Suspend(flag) => s.(asleep := true, waiter := Record(flag))
    case Record(flag) => s.(coroEntry := true, waiter := Publish(flag))
    case Publish(flag) => s.(flags := flag, waiter := Yield)
    case Yield => s.(waiter := CheckTimeout)
    case CheckTimeout => s.(noTimeoutLock := true, waiter := Returned(!s.noTimeoutLock))
    case AwaitWakeupEnd => s.(waiter := Returned(false))
    case Returned(_) => s
  }

  function StepNotifier(s: State, spurious: bool): State {
    match s.notifier
    case LoadFlag => s.(notifier := Inspect(s.flags))
    case Inspect(flag) =>
      if flag.suspendBegin then s.(notifier := AwaitSuspendEnd)
      else if s.flags == flag && !spurious
      then s.(flags := flag.(wakeupBegin := true),
              notifier := TakeLock(flag.(wakeupBegin := true, wakeupEnd := true)))
      else s.(notifier := LoadFlag)
    case TakeLock(flag) =>
      if s.noTimeoutLock then s.(flags := flag, notifier := Notified(false))
      else s.(noTimeoutLock := true, notifier := RunFunctor(flag))
    case RunFunctor(flag) => s.(runs := s.runs + 1, notifier := PublishEnd(flag))
    case PublishEnd(flag) => s.(flags := flag, notifier := Notified(true))
    case AwaitSuspendEnd => s.(notifier := TakeLockAsleep)
    case TakeLockAsleep =>
      if s.noTimeoutLock then s.(notifier := Notified(false)) else s.(noTimeoutLock := true, notifier := Wake)
    case Wake =>
      if s.coroEntry && s.asleep then s.(asleep := false, runs := s.runs + 1, notifier := Notified(true))
      else s.(notifier := Notified(false))
    case Notified(_) => s
  }

  function Next(s: State, step: Step): State {
    match step
    case WaiterStep(spurious) => StepWaiter(s, spurious)
    case NotifierStep(spurious) => StepNotifier(s, spurious)
  }

  // ------------------------------------------------------------ the invariant

  /** The side that began first owns the entry from then on. */
  ghost predicate Agreed(s: State) {
    var woken := Flags(false, false, true, false);
    var asleep := Flags(true, false, false, false);
    match s.notifier
    case LoadFlag => !s.flags.wakeupBegin && !s.noTimeoutLock && s.runs == 0
    case Inspect(flag) =>
      && !s.flags.wakeupBegin && !s.noTimeoutLock && s.runs == 0
      && (flag == QUIET || (flag.suspendBegin && s.flags.suspendBegin))
    case TakeLock(flag) =>
      s.flags == woken && !s.noTimeoutLock && s.runs == 0 && flag == woken.(wakeupEnd := true)
    case RunFunctor(flag) =>
      s.flags == woken && s.noTimeoutLock && s.runs == 0 && flag == woken.(wakeupEnd := true)
    case PublishEnd(flag) =>
      s.flags == woken && s.noTimeoutLock && s.runs == 1 && flag == woken.(wakeupEnd := true)
    case AwaitSuspendEnd => s.flags.suspendBegin && !s.noTimeoutLock && s.runs == 0
    case TakeLockAsleep => s.flags == asleep.(suspendEnd := true) && !s.noTimeoutLock && s.runs == 0 && s.asleep
    case Wake => s.flags == asleep.(suspendEnd := true) && s.noTimeoutLock && s.runs == 0 && s.asleep
    case Notified(ok) =>
      && ok && s.noTimeoutLock && s.runs == 1 && !s.asleep
      && (s.flags == woken.(wakeupEnd := true) || s.flags == asleep.(suspendEnd := true))
  }

  ghost predicate Placed(s: State) {
    var waking := !s.flags.suspendBegin && !s.coroEntry && !s.asleep;
    match s.waiter
    case Load => waking
    case Decide(flag) => waking && (flag == QUIET || flag.wakeupBegin) && (flag.wakeupBegin ==> s.flags.wakeupBegin)
    case Swap(flag) => waking && flag == QUIET
    case Suspend(flag) =>
      && s.flags == Flags(true, false, false, false) && !s.coroEntry && !s.asleep
      && flag == Flags(true, true, false, false)
    case Record(flag) =>
      && s.flags == Flags(true, false, false, false) && !s.coroEntry && s.asleep
      && flag == Flags(true, true, false, false)
    case Publish(flag) =>
      && s.flags == Flags(true, false, false, false) && s.coroEntry && s.asleep
      && flag == Flags(true, true, false, false)
    case Yield => s.flags == Flags(true, true, false, false) && s.coroEntry && (s.asleep <==> s.runs == 0)
    case CheckTimeout => s.flags == Flags(true, true, false, false) && s.noTimeoutLock && s.runs == 1
    case AwaitWakeupEnd => waking && s.flags.wakeupBegin
    case Returned(timeout) => !timeout && s.noTimeoutLock && s.runs == 1 && !s.asleep && s.notifier.Notified?
  }

  ghost predicate Sound(s: State) {
    && (s.flags.suspendEnd ==> s.flags.suspendBegin)
    && (s.flags.wakeupEnd ==> s.flags.wakeupBegin)
    && !(s.flags.suspendBegin && s.flags.wakeupBegin)
    && Agreed(s) && Placed(s)
  }

  lemma WaiterKeeps(s: State, spurious: bool)
    requires Sound(s) && Enabled(s, WaiterStep(spurious))
    ensures Sound(StepWaiter(s, spurious))
  {
  }

  lemma NotifierKeeps(s: State, spurious: bool)
    requires Sound(s) && Enabled(s, NotifierStep(spurious))
    ensures Sound(StepNotifier(s, spurious))
  {
  }

  // ------------------------------------------------------------ whole runs

  ghost predicate Legal(s: State, steps: seq<Step>)
    decreases steps
  {
    steps == [] || (Enabled(s, steps[0]) && Legal(Next(s, steps[0]), steps[1..]))
  }

  function Final(s: State, steps: seq<Step>): State
    requires Legal(s, steps)
    decreases steps
  {
    if steps == [] then s else Final(Next(s, steps[0]), steps[1..])
  }

  lemma {:induction false} RunKeeps(s: State, steps: seq<Step>)
    requires Sound(s) && Legal(s, steps)
    ensures Sound(Final(s, steps))
    decreases steps
  {
    hide Sound, StepWaiter, StepNotifier, Enabled;
    if steps != [] {
      match steps[0] {
        case WaiterStep(spurious) => WaiterKeeps(s, spurious);
        case NotifierStep(spurious) => NotifierKeeps(s, spurious);
      }
      RunKeeps(Next(s, steps[0]), steps[1..]);
    }
  }

  /**
   * Over all interleavings: never both sides begin, the functor runs at most once, the notifier
   * always succeeds, and a waiter that returns reports no timeout and finds the functor run.
   */
  lemma AnyRun(steps: seq<Step>)
    requires Legal(START, steps)
    ensures var s := Final(START, steps);
            && !(s.flags.suspendBegin && s.flags.wakeupBegin) && s.runs <= 1
            && (s.notifier.Notified? ==> s.notifier.ok && s.runs == 1)
            && (s.waiter.Returned? ==> !s.waiter.timeout && s.runs == 1)
            && (s.notifier.Notified? || s.waiter.Returned? ==> s.flags.suspendBegin != s.flags.wakeupBegin)
  {
    RunKeeps(START, steps);
  }

  /** A notifier that has begun finds its lock free, and the suspend entry stored; the waiter finds the lock taken. */
  lemma NotifierUndisturbed(s: State)
    requires Sound(s)
    ensures s.notifier.TakeLock? || s.notifier.TakeLockAsleep? ==> !s.noTimeoutLock
    ensures s.notifier.Wake? ==> s.coroEntry && s.asleep
    ensures s.waiter.CheckTimeout? ==> s.noTimeoutLock
  {
  }

  // ------------------------------------------------------------ progress

  predicate Done(s: State) {
    s.waiter.Returned? && s.notifier.Notified?
  }

  function NotifierRank(s: State): nat {
    match s.notifier
    case LoadFlag => 8
    case Inspect(flag) => if flag.suspendBegin || flag == s.flags then 7 else 9
    case AwaitSuspendEnd => 6
    case TakeLockAsleep => 5
    case TakeLock(_) => 4
    case Wake => 3
    case RunFunctor(_) => 3
    case PublishEnd(_) => 2
    case Notified(_) => 0
  }

  function WaiterRank(s: State): nat {
    match s.waiter
    case Load => if s.flags.wakeupBegin then 10 else 12 + 2 * SpinsLeft(s)
    case Decide(flag) =>
      if flag.wakeupBegin then 9 else if s.flags.wakeupBegin then 13 else 11 + 2 * SpinsLeft(s)
    case Swap(flag) => if flag == s.flags then 10 else 11
    case Suspend(_) => 6
    case Record(_) => 5
    case Publish(_) => 4
    case Yield => 3
    case CheckTimeout => 2
    case AwaitWakeupEnd => 1
    case Returned(_) => 0
  }

  function SpinsLeft(s: State): nat {
    if s.spins == 0 then 1 else 0
  }

  /** Who can move next towards the end: the notifier, unless it awaits the waiter or is done. */
  function Choice(s: State): Step {
    if Enabled(s, NotifierStep(false)) then NotifierStep(false) else WaiterStep(false)
  }

  /** No deadlock: from every reachable state that is not the end, one side can bring the end nearer. */
  lemma Progress(s: State)
    requires Sound(s) && !Done(s)
    ensures Enabled(s, Choice(s))
    ensures var s' := Next(s, Choice(s));
            || NotifierRank(s') < NotifierRank(s)
            || (NotifierRank(s') == NotifierRank(s) && WaiterRank(s') < WaiterRank(s))
  {
  }

  /** From every reachable state both sides can still finish. */
  lemma Completes(s: State) returns (steps: seq<Step>)
    requires Sound(s)
    ensures Legal(s, steps) && Done(Final(s, steps))
    decreases NotifierRank(s), WaiterRank(s)
  {
    hide Sound, StepWaiter, StepNotifier, Enabled, NotifierRank, WaiterRank;
    if Done(s) {
      return [];
    }
    Progress(s);
    var step := Choice(s);
    match step {
      case WaiterStep(spurious) => WaiterKeeps(s, spurious);
      case NotifierStep(spurious) => NotifierKeeps(s, spurious);
    }
    var rest := Completes(Next(s, step));
    steps := [step] + rest;
    assert steps[1..] == rest;
  }

  // ------------------------------------------------------------ each side alone

  ghost predicate Waiters(steps: seq<Step>) {
    forall i: nat :: i < |steps| ==> steps[i] == WaiterStep(false)
  }

  ghost predicate Notifiers(steps: seq<Step>) {
    forall i: nat :: i < |steps| ==> steps[i] == NotifierStep(false)
  }

  lemma First(s: State, step: Step, rest: seq<Step>)
    requires Enabled(s, step) && Legal(Next(s, step), rest)
    ensures Legal(s, [step] + rest) && Final(s, [step] + rest) == Final(Next(s, step), rest)
  {
    assert ([step] + rest)[1..] == rest;
  }

  /** Asleep: both suspend flags are set, and the entry is stored for the notifier. */
  predicate Asleep(s: State) {
    s.waiter.Yield? && s.asleep && s.coroEntry && s.flags == Flags(true, true, false, false)
  }

  /** One step of the waiter on its way to sleep. */
  lemma SleepNearer(s: State)
    requires Sound(s) && !s.flags.wakeupBegin && !s.waiter.Returned? && !s.waiter.CheckTimeout? && !s.waiter.Yield?
    ensures Enabled(s, WaiterStep(false))
    ensures var s' := StepWaiter(s, false);
            && WaiterRank(s') < WaiterRank(s) && s'.notifier == s.notifier && s'.runs == s.runs
            && !s'.flags.wakeupBegin && !s'.waiter.Returned? && !s'.waiter.CheckTimeout?
            && (s'.waiter.Yield? ==> Asleep(s'))
  {
  }

  /** As long as the notifier has not begun, the waiter alone goes to sleep. */
  lemma SleepsAlone(s: State) returns (steps: seq<Step>)
    requires Sound(s) && !s.flags.wakeupBegin
    requires !s.waiter.Returned? && !s.waiter.CheckTimeout? && (s.waiter.Yield? ==> Asleep(s))
    ensures Waiters(steps) && Legal(s, steps)
    ensures Asleep(Final(s, steps)) && Final(s, steps).notifier == s.notifier && Final(s, steps).runs == s.runs
    decreases WaiterRank(s)
  {
    hide Sound, StepWaiter, Enabled, WaiterRank;
    steps := [];
    if !s.waiter.Yield? {
      SleepNearer(s);
      WaiterKeeps(s, false);
      var rest := SleepsAlone(StepWaiter(s, false));
      First(s, WaiterStep(false), rest);
      steps := [WaiterStep(false)] + rest;
    }
  }

  /** The notifier can always step by itself, but while the waiter is half asleep. */
  lemma NotifyNearer(s: State)
    requires Sound(s) && !s.notifier.Notified? && (s.flags.suspendBegin ==> s.flags.suspendEnd)
    ensures Enabled(s, NotifierStep(false))
    ensures var s' := StepNotifier(s, false);
            && NotifierRank(s') < NotifierRank(s) && s'.waiter == s.waiter
            && s'.flags.suspendBegin == s.flags.suspendBegin && s'.flags.suspendEnd == s.flags.suspendEnd
            && (s'.notifier.Notified? ==> s'.notifier.ok && s'.runs == 1 && !s'.asleep && s'.noTimeoutLock)
  {
  }

  /** The notifier alone succeeds: it wakes a waiter that sleeps, or else begins first; the functor has run. */
  lemma NotifiesAlone(s: State) returns (steps: seq<Step>)
    requires Sound(s) && (s.flags.suspendBegin ==> s.flags.suspendEnd)
    ensures Notifiers(steps) && Legal(s, steps)
    ensures var s' := Final(s, steps);
            && s'.notifier == Notified(true) && s'.runs == 1 && !s'.asleep && s'.waiter == s.waiter
            && (s.flags.suspendBegin || (s'.flags.wakeupBegin && s'.flags.wakeupEnd))
    decreases NotifierRank(s)
  {
    hide Sound, StepNotifier, Enabled, NotifierRank;
    steps := [];
    if s.notifier.Notified? {
      NotifiedSound(s);
    } else {
      NotifyNearer(s);
      NotifierKeeps(s, false);
      var rest := NotifiesAlone(StepNotifier(s, false));
      First(s, NotifierStep(false), rest);
      steps := [NotifierStep(false)] + rest;
    }
  }

  lemma NotifiedSound(s: State)
    requires Sound(s) && s.notifier.Notified?
    ensures s.notifier.ok && s.runs == 1 && !s.asleep
    ensures s.flags.suspendBegin || (s.flags.wakeupBegin && s.flags.wakeupEnd)
  {
  }

  lemma ReturnNearer(s: State)
    requires Sound(s) && s.notifier.Notified? && !s.waiter.Returned?
    ensures Enabled(s, WaiterStep(false))
    ensures var s' := StepWaiter(s, false); WaiterRank(s') < WaiterRank(s) && s'.notifier == s.notifier
  {
  }

  /** Once the notifier is done the waiter alone returns, without a timeout. */
  lemma ReturnsAlone(s: State) returns (steps: seq<Step>)
    requires Sound(s) && s.notifier.Notified?
    ensures Waiters(steps) && Legal(s, steps) && Final(s, steps).waiter == Returned(false)
    decreases WaiterRank(s)
  {
    hide StepWaiter, Enabled, WaiterRank;
    steps := [];
    if !s.waiter.Returned? {
      ReturnNearer(s);
      WaiterKeeps(s, false);
      var rest := ReturnsAlone(StepWaiter(s, false));
      First(s, WaiterStep(false), rest);
      steps := [WaiterStep(false)] + rest;
    }
  }

  /** The whole exchange with a sleeper: the waiter falls asleep, the notifier wakes it, the waiter returns. */
  lemma SleepAndWake(s: State) returns (sleep: seq<Step>, wake: seq<Step>, leave: seq<Step>)
    requires Sound(s) && !s.flags.wakeupBegin && !s.flags.suspendBegin
    ensures Waiters(sleep) && Legal(s, sleep) && Asleep(Final(s, sleep))
    ensures var asleep := Final(s, sleep);
            && Notifiers(wake) && Legal(asleep, wake) && asleep.runs == 0
            && var woken := Final(asleep, wake);
            && woken.notifier == Notified(true) && woken.runs == 1 && !woken.asleep
            && Waiters(leave) && Legal(woken, leave) && Final(woken, leave).waiter == Returned(false)
  {
    sleep := SleepsAlone(s);
    RunKeeps(s, sleep);
    var asleep := Final(s, sleep);
    wake := NotifiesAlone(asleep);
    RunKeeps(asleep, wake);
    leave := ReturnsAlone(Final(asleep, wake));
  }
}

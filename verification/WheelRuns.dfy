/// Whole runs of the timer wheel. A step is what the contracts of StartTimer and
/// RunOnce promise of the wheel before and after; a trace is a run of steps. What
/// is proved here holds of every trace, and the wheel's own runs are traces.
module WheelRuns {
  import opened Base256
  import opened WheelScan
  import opened WheelStray
  import opened WheelTimer

  const CLOCK_END := 0x8000_0000_0000_0000

  // -------------------------------------------------------------- one step

  ghost predicate Square(slots: seq<seq<seq<Element>>>) {
    |slots| == LEVELS && forall k: nat :: k < LEVELS ==> |slots[k]| == SLOTS
  }

  /** The timer waits in some slot. */
  ghost predicate Waits(slots: seq<seq<seq<Element>>>, e: Element) {
    exists k: nat, o: nat :: k < |slots| && o < |slots[k]| && e in slots[k][o]
  }

  /** Every started timer is in one place: fired, late, or in a slot. Only started timers are anywhere. */
  ghost predicate Whole(v: View, precision: nat) {
    && Square(v.slots)
    && v.point * precision <= v.clock < v.point * precision + precision && v.clock < CLOCK_END
    && (forall i: nat, j: nat :: i < j < |v.fired| ==> v.fired[i] != v.fired[j])
    && (forall e :: e in v.fired ==> e in v.started && e !in v.complete && !Waits(v.slots, e))
    && (forall e :: e in v.complete ==> e in v.started && !Waits(v.slots, e))
    && (forall k: nat, o: nat :: k < LEVELS && o < SLOTS ==> forall e :: e in v.slots[k][o] ==> e in v.started)
    && (forall e :: e in v.started ==> e in v.fired || e in v.complete || Waits(v.slots, e))
  }

  /** Every waiting timer sits where its deadline will be met. */
  ghost predicate Timely(v: View, precision: nat)
    requires 0 < precision
  {
    && Square(v.slots)
    && (forall k: nat, o: nat :: k < LEVELS && o < SLOTS ==> SlotFits(v.slots[k][o], k, o, v.point, precision))
    && (forall i: nat :: i < |v.complete| ==> v.complete[i].tp <= v.point * precision)
  }

  /** The slots have been emptied as a scan empties them, and have then only gained timers not due. */
  ghost predicate Scanned(v: View, now: int, v': View) {
    && Square(v.slots) && Square(v'.slots)
    && exists gone: seq<set<nat>> :: ScanFinished(gone, v.point, v'.point) && |gone| == LEVELS
         && forall k: nat, o: nat :: k < LEVELS && o < SLOTS ==>
              Grown(if o in gone[k] then [] else v.slots[k][o], v'.slots[k][o], now)
  }

  /** What RunOnce promises. */
  ghost predicate Ran(v: View, now: int, v': View, precision: nat)
    requires 0 < precision
  {
    && v'.clock == now && v'.point == now / precision && v.point <= v'.point
    && v'.started == v.started && v'.complete == [] && v.fired <= v'.fired
    && (Whole(v, precision) ==> Whole(v', precision))
    && (Timely(v, precision) && MissesNone(v.point, v'.point) ==> Timely(v', precision))
    && (Timely(v, precision) ==> AllMayFire(v'.fired, |v.fired|, v.slots, v.point, v'.point, now, precision))
    && FiredOutright(v.slots, v.point, v'.point, v'.fired)
    && Scanned(v, now, v')
  }

  /** What StartTimer promises. */
  ghost predicate Started(v: View, tp: int, v': View, precision: nat)
    requires 0 < precision
  {
    var e := Element(|v.started|, tp);
    && v'.point == v.point && v'.clock == v.clock && v'.fired == v.fired && v'.started == v.started + [e]
    && (Whole(v, precision) ==> Whole(v', precision))
    && (Timely(v, precision) ==> Timely(v', precision))
    && Square(v.slots) && Square(v'.slots)
    && if tp <= v.point * precision then v'.complete == v.complete + [e] && v'.slots == v.slots
       else
         && v'.complete == v.complete && v.point <= tp / precision
         && forall k: nat, o: nat :: k < LEVELS && o < SLOTS ==>
              v'.slots[k][o] == v.slots[k][o]
              + if k == Level(v.point, tp / precision) && o == Offset(v.point, tp / precision) then [e] else []
  }

  ghost predicate Step(v: View, op: Op, v': View, precision: nat)
    requires 0 < precision
  {
    match op
    case Start(tp) => Started(v, tp, v', precision)
    case Run(now) => Ran(v, now, v', precision)
  }

  lemma WholeNow(t: Timer)
    requires t.Valid()
    ensures Whole(t.Snapshot(), t.precision)
    ensures Timely(t.Snapshot(), t.precision) <==> t.OnTime()
  {
    hide SlotFits, Fits;
    var v := t.Snapshot();
    forall e | e in t.started
      ensures e in t.fired || e in t.complete || Waits(v.slots, e)
    {
      var p := t.place[e.id];
      if p.InSlot? {
        assert e in v.slots[p.level][p.offset];
      }
    }
  }

  lemma SameSlots(a: seq<seq<seq<Element>>>, b: seq<seq<seq<Element>>>)
    requires Square(a) && Square(b)
    requires forall k: nat, o: nat :: k < LEVELS && o < SLOTS ==> a[k][o] == b[k][o]
    ensures a == b
  {
    forall k: nat | k < LEVELS
      ensures a[k] == b[k]
    {
      assert forall o: nat :: o < SLOTS ==> a[k][o] == b[k][o];
    }
  }

  /** The wheel's own methods take such steps. */
  method PerformStart(t: Timer, tp: int)
    requires t.Valid() && tp < CLOCK_END
    modifies t, t.slots
    ensures t.Valid() && Started(old(t.Snapshot()), tp, t.Snapshot(), t.precision)
  {
    hide Holds, SlotFits, Fits, Whole, Timely, Level, Offset;
    WholeNow(t);
    ghost var v := t.Snapshot();
    var e := t.StartTimer(tp);
    WholeNow(t);
    if tp <= t.point * t.precision {
      SameSlots(v.slots, t.Wheel());
    }
  }

  method PerformRun(t: Timer, now: int)
    requires t.Valid() && t.clock <= now < CLOCK_END
    modifies t, t.slots
    ensures t.Valid() && Ran(old(t.Snapshot()), now, t.Snapshot(), t.precision)
  {
    hide Holds, SlotFits, Fits, Whole, Timely, AllMayFire, FiredOutright, MissesNone, ScanFinished;
    WholeNow(t);
    ghost var v := t.Snapshot();
    var gone := t.RunOnce(now);
    WholeNow(t);
    assert Scanned(v, now, t.Snapshot()) by {
      ghost var w := t.Snapshot();
      assert ScanFinished(gone, v.point, w.point);
      assert forall k: nat, o: nat :: k < LEVELS && o < SLOTS ==>
        Grown(if o in gone[k] then [] else v.slots[k][o], w.slots[k][o], now);
    }
  }

  method Perform(t: Timer, op: Op)
    requires t.Valid()
    requires op.Start? ==> op.tp < CLOCK_END
    requires op.Run? ==> t.clock <= op.now < CLOCK_END
    modifies t, t.slots
    ensures t.Valid() && Step(old(t.Snapshot()), op, t.Snapshot(), t.precision)
  {
    hide Started, Ran;
    match op {
      case Start(tp) => PerformStart(t, tp);
      case Run(now) => PerformRun(t, now);
    }
  }

  // -------------------------------------------------------------- whole runs

  /** The slots of a new wheel. */
  function NoSlots(): (slots: seq<seq<seq<Element>>>)
    ensures Square(slots) && forall k: nat, o: nat :: k < LEVELS && o < SLOTS ==> slots[k][o] == []
  {
    var level: seq<seq<Element>> := seq(SLOTS, _ => []);
    seq(LEVELS, _ => level)
  }

  function Empty(): View {
    View(0, 0, [], [], [], NoSlots())
  }

  /** The clock after the first `n` operations. */
  function ClockAfter(ops: seq<Op>, n: nat): int
    requires n <= |ops|
  {
    if n == 0 then 0 else if ops[n - 1].Run? then ops[n - 1].now else ClockAfter(ops, n - 1)
  }

  /** The timers started by the first `n` operations, in order. */
  function StartsOf(ops: seq<Op>, n: nat): seq<Element>
    requires n <= |ops|
  {
    if n == 0 then []
    else
      var before := StartsOf(ops, n - 1);
      if ops[n - 1].Start? then before + [Element(|before|, ops[n - 1].tp)] else before
  }

  /** Times are in range, and clock readings do not go back. */
  predicate Sensible(ops: seq<Op>) {
    forall i: nat :: i < |ops| ==>
      && (ops[i].Start? ==> ops[i].tp < CLOCK_END)
      && (ops[i].Run? ==> 0 <= ClockAfter(ops, i) <= ops[i].now < CLOCK_END)
  }

  /** The views before and after each operation of a run, from the empty wheel on. */
  ghost predicate Trace(views: seq<View>, ops: seq<Op>, precision: nat)
    requires 0 < precision
  {
    && |views| == |ops| + 1 && views[0] == Empty()
    && forall i: nat :: i < |ops| ==> Step(views[i], ops[i], views[i + 1], precision)
  }

  /** Every scan ends where it misses no timer. */
  ghost predicate NoneMissed(views: seq<View>, ops: seq<Op>) {
    |views| > |ops| && forall i: nat :: i < |ops| && ops[i].Run? ==> MissesNone(views[i].point, views[i + 1].point)
  }

  /** No scan is long enough to fire a slot outright: a timer thread that keeps up. */
  ghost predicate KeepsUp(views: seq<View>, ops: seq<Op>) {
    |views| > |ops| && forall i: nat :: i < |ops| && ops[i].Run? ==>
      views[i + 1].point <= NextAbove(views[i].point + 255, 256)
  }

  lemma EmptyWhole(precision: nat)
    requires 0 < precision
    ensures Whole(Empty(), precision) && Timely(Empty(), precision)
  {
    assert forall k: nat, o: nat :: k < LEVELS && o < SLOTS ==> NoSlots()[k][o] == [];
  }

  /** In every run whatever, at every moment: the clock and the started timers are those of the
      operations, and every started timer is in one place, so that none is lost and none fires twice. */
  lemma {:induction false} EveryRun(precision: nat, ops: seq<Op>, views: seq<View>, n: nat)
    requires 0 < precision && Trace(views, ops, precision) && n <= |ops|
    ensures Whole(views[n], precision)
    ensures views[n].started == StartsOf(ops, n) && views[n].clock == ClockAfter(ops, n)
  {
    hide Whole, Timely, Scanned, AllMayFire, FiredOutright, MissesNone, Level, Offset;
    if n == 0 {
      EmptyWhole(precision);
    } else {
      EveryRun(precision, ops, views, n - 1);
      assert Step(views[n - 1], ops[n - 1], views[n], precision);
    }
  }

  /** In every run whose scans miss no timer, every timer waits where its deadline will be met. */
  lemma {:induction false} TimelyRun(precision: nat, ops: seq<Op>, views: seq<View>, n: nat)
    requires 0 < precision && Trace(views, ops, precision) && NoneMissed(views, ops) && n <= |ops|
    ensures Timely(views[n], precision)
  {
    hide Whole, Timely, Scanned, AllMayFire, FiredOutright, MissesNone, Level, Offset;
    if n == 0 {
      EmptyWhole(precision);
    } else {
      TimelyRun(precision, ops, views, n - 1);
      assert Step(views[n - 1], ops[n - 1], views[n], precision);
    }
  }

  /** In every run that keeps up, no timer fires early. */
  lemma {:induction false} PatientRun(precision: nat, ops: seq<Op>, views: seq<View>, n: nat)
    requires 0 < precision && Trace(views, ops, precision) && NoneMissed(views, ops) && KeepsUp(views, ops)
    requires Sensible(ops) && n <= |ops|
    ensures forall e :: e in views[n].fired ==> e.tp <= views[n].clock
  {
    hide Whole, Timely, Scanned, MayFire, FiredOutright, MissesNone, Level, Offset, NextAbove;
    if n > 0 {
      var v, v', op := views[n - 1], views[n], ops[n - 1];
      PatientRun(precision, ops, views, n - 1);
      TimelyRun(precision, ops, views, n - 1);
      EveryRun(precision, ops, views, n - 1);
      assert Step(v, op, v', precision);
      if op.Run? {
        forall j | |v.fired| <= j < |v'.fired|
          ensures v'.fired[j].tp <= op.now
        {
          assert MayFire(v'.fired[j], v.slots, v.point, v'.point, op.now, precision);
          NotEarly(v'.fired[j], v.slots, v.point, v'.point, op.now, precision);
        }
        assert forall e :: e in v'.fired ==> e in v.fired || e in v'.fired[|v.fired|..];
      }
    }
  }

  /** A waiting timer of a timely wheel is not due before the point. */
  lemma WaitingNotDue(v: View, precision: nat, e: Element)
    requires 0 < precision && Timely(v, precision) && Waits(v.slots, e)
    ensures e.tp / precision >= v.point
  {
    hide Belongs;
    var k: nat, o: nat :| k < |v.slots| && o < |v.slots[k]| && e in v.slots[k][o];
    assert SlotFits(v.slots[k][o], k, o, v.point, precision);
    var i: nat :| i < |v.slots[k][o]| && v.slots[k][o][i] == e;
    assert Fits(v.slots[k][o][i].tp / precision, k, o, v.point);
    NextVisitBasics(k, o, v.point);
  }

  /** In every run whose scans miss no timer, at every moment: no timer has fired twice, only timers that
      were started have fired, and every timer not fired yet either was late when started, since the last
      scan, or is not due before the point. If the scans keep up, no timer has fired early. */
  lemma AnyRun(precision: nat, ops: seq<Op>, views: seq<View>, n: nat)
    requires 100_000 <= precision && Sensible(ops) && Trace(views, ops, precision) && NoneMissed(views, ops)
    requires n <= |ops|
    ensures views[n].started == StartsOf(ops, n)
    ensures views[n].clock == ClockAfter(ops, n) && views[n].point == ClockAfter(ops, n) / precision
    ensures forall i: nat, j: nat :: i < j < |views[n].fired| ==> views[n].fired[i] != views[n].fired[j]
    ensures forall e :: e in views[n].fired ==> e in StartsOf(ops, n)
    ensures forall e :: e in StartsOf(ops, n) ==>
              || e in views[n].fired || (e in views[n].complete && e.tp <= views[n].clock)
              || e.tp / precision >= views[n].point
    ensures KeepsUp(views, ops) ==> forall e :: e in views[n].fired ==> e.tp <= views[n].clock
  {
    hide Waits, SlotFits, Square;
    var v := views[n];
    EveryRun(precision, ops, views, n);
    TimelyRun(precision, ops, views, n);
    DivModUnique(v.clock, precision, v.point, v.clock - v.point * precision);
    if KeepsUp(views, ops) {
      PatientRun(precision, ops, views, n);
    }
    forall e | e in v.started
      ensures e in v.fired || (e in v.complete && e.tp <= v.clock) || e.tp / precision >= v.point
    {
      if Waits(v.slots, e) {
        WaitingNotDue(v, precision, e);
      }
    }
  }

  /** Driven by any operations with sensible times, the wheel goes through such a trace. */
  method Play(precision: nat, ops: seq<Op>) returns (t: Timer, ghost views: seq<View>)
    requires 100_000 <= precision && Sensible(ops)
    ensures t.Valid() && Trace(views, ops, precision) && t.Snapshot() == views[|ops|]
  {
    hide Step, Holds, Whole, Timely, SlotFits;
    t := new Timer(precision);
    SameSlots(t.Wheel(), NoSlots());
    views := [t.Snapshot()];
    for n := 0 to |ops|
      invariant fresh(t) && fresh(t.slots) && t.Valid() && t.precision == precision
      invariant |views| == n + 1 && views[0] == Empty() && t.Snapshot() == views[n] && t.clock == ClockAfter(ops, n)
      invariant forall i: nat :: i < n ==> Step(views[i], ops[i], views[i + 1], precision)
    {
      Perform(t, ops[n]);
      ghost var was := views;
      views := views + [t.Snapshot()];
      assert forall i: nat :: i <= n ==> views[i] == was[i];
      StepClock(was[n], ops[n], views[n + 1], precision);
    }
  }

  lemma StepClock(v: View, op: Op, v': View, precision: nat)
    requires 0 < precision && Step(v, op, v', precision)
    ensures v'.clock == if op.Run? then op.now else v.clock
  {
  }
}

/// The hierarchical timer: eight wheels of 256 slots, filled by StartTimer and
/// advanced by RunOnce, which fires what is due and re-places what it cascades.
module WheelTimer {
  import opened Base256
  import opened WheelScan
  import opened WheelStray

  /** A timer: its number in start order and its deadline, in nanoseconds since the wheel's start. */
  datatype Element = Element(id: nat, tp: int)

  datatype Op = Start(tp: int) | Run(now: int)

  datatype Place = Loose | Fired | Complete | Cascaded | InSlot(level: nat, offset: nat)

  /** A timer wheel at one moment: its fields, and the history kept with them. */
  datatype View = View(
    point: nat, clock: nat, complete: seq<Element>, fired: seq<Element>, started: seq<Element>,
    slots: seq<seq<seq<Element>>>)

  ghost predicate InRange(p: Place) {
    p.InSlot? ==> p.level < LEVELS && p.offset < SLOTS
  }

  /** `s` is, without repetition, exactly the started timers that are at place `p`. */
  ghost predicate Holds(s: seq<Element>, p: Place, started: seq<Element>, place: seq<Place>)
    requires |place| == |started|
  {
    && (forall i, j :: 0 <= i < j < |s| ==> s[i].id != s[j].id)
    && (forall i :: 0 <= i < |s| ==> s[i].id < |started| && s[i] == started[s[i].id] && place[s[i].id] == p)
    && (forall id :: 0 <= id < |place| && place[id] == p ==> started[id] in s)
  }

  ghost function MoveAll(place: seq<Place>, p: Place, q: Place): (r: seq<Place>)
    ensures |r| == |place|
    ensures forall i :: 0 <= i < |r| ==> r[i] == if place[i] == p then q else place[i]
  {
    seq(|place|, i requires 0 <= i < |place| => if place[i] == p then q else place[i])
  }

  lemma HoldsMoveAll(s: seq<Element>, p: Place, t: seq<Element>, q: Place, started: seq<Element>, place: seq<Place>)
    requires |place| == |started| && p != q
    requires Holds(s, p, started, place) && Holds(t, q, started, place)
    ensures Holds(t + s, q, started, MoveAll(place, p, q))
    ensures Holds([], p, started, MoveAll(place, p, q))
  {
    var place' := MoveAll(place, p, q);
    forall id | 0 <= id < |place'| && place'[id] == q
      ensures started[id] in t + s
    {
      assert place[id] == p || place[id] == q;
    }
  }

  lemma HoldsOther(s: seq<Element>, r: Place, p: Place, q: Place, started: seq<Element>, place: seq<Place>)
    requires |place| == |started| && r != p && r != q
    requires Holds(s, r, started, place)
    ensures Holds(s, r, started, MoveAll(place, p, q))
  {
  }

  lemma HoldsMoveFirst(s: seq<Element>, p: Place, t: seq<Element>, q: Place, started: seq<Element>, place: seq<Place>)
    requires |place| == |started| && p != q && s != [] && s[0].id < |place|
    requires forall id :: 0 <= id < |started| ==> started[id].id == id
    requires Holds(s, p, started, place) && Holds(t, q, started, place)
    ensures Holds(t + [s[0]], q, started, place[s[0].id := q])
    ensures Holds(s[1..], p, started, place[s[0].id := q])
  {
    var place' := place[s[0].id := q];
    forall id | 0 <= id < |place'| && place'[id] == p
      ensures started[id] in s[1..]
    {
      assert started[id] in s && started[id].id != s[0].id;
    }
  }

  /** Moving the first cascaded timer touches no other place. */
  lemma MovedOther(s: seq<Element>, r: Place, d: seq<Element>, q: Place, started: seq<Element>, place: seq<Place>)
    requires |place| == |started| && r != Cascaded && r != q && d != []
    requires Holds(d, Cascaded, started, place) && Holds(s, r, started, place)
    ensures d[0].id < |place| && Holds(s, r, started, place[d[0].id := q])
  {
  }

  lemma HoldsExtend(s: seq<Element>, p: Place, started: seq<Element>, place: seq<Place>, e: Element)
    requires |place| == |started| && p != Loose
    requires Holds(s, p, started, place)
    ensures Holds(s, p, started + [e], place + [Loose])
  {
  }

  /** Every timer of one slot has a deadline that the slot is in time for. */
  ghost predicate SlotFits(s: seq<Element>, k: nat, o: nat, point: nat, precision: nat)
    requires precision > 0
  {
    forall i :: 0 <= i < |s| ==> Fits(s[i].tp / precision, k, o, point)
  }

  /** A slot has only gained timers that are not due at `now`. */
  ghost predicate Grown(before: seq<Element>, after: seq<Element>, now: int) {
    before <= after && forall i :: |before| <= i < |after| ==> after[i].tp > now
  }

  lemma GrownTwice(a: seq<Element>, b: seq<Element>, c: seq<Element>, now: int)
    requires Grown(a, b, now) && Grown(b, c, now)
    ensures Grown(a, c, now)
  {
    forall i | |a| <= i < |c|
      ensures c[i].tp > now
    {
      assert i < |b| ==> c[i] == b[i];
    }
  }

  /** The timers of a list whose time has come, in the list's order. */
  function DueIn(s: seq<Element>, now: int): (r: seq<Element>)
    ensures forall e :: e in r <==> e in s && e.tp <= now
    ensures forall i :: 0 <= i < |r| ==> r[i].tp <= now
  {
    if s == [] then []
    else
      var n := |s| - 1;
      assert s == s[..n] + [s[n]];
      DueIn(s[..n], now) + if s[n].tp <= now then [s[n]] else []
  }

  lemma DueNext(s: seq<Element>, i: nat, now: int)
    requires i < |s|
    ensures DueIn(s[..i + 1], now) == DueIn(s[..i], now) + if s[i].tp <= now then [s[i]] else []
  {
    assert s[..i + 1][..i] == s[..i];
  }

  lemma NoneDueIn(now: int)
    ensures DueIn([], now) == []
  {
  }

  lemma DueLater(before: seq<Element>, s: seq<Element>, now: int)
    ensures forall j :: |before| <= j < |before + DueIn(s, now)| ==> (before + DueIn(s, now))[j].tp <= now
  {
  }

  /** Two timers of the list come in the order they have there. */
  lemma {:induction false} DueInOrder(s: seq<Element>, now: int, i: nat, j: nat) returns (a: nat, b: nat)
    requires i < j < |s| && s[i].tp <= now && s[j].tp <= now
    ensures a < b < |DueIn(s, now)| && DueIn(s, now)[a] == s[i] && DueIn(s, now)[b] == s[j]
  {
    hide DueIn;
    var n := |s| - 1;
    var before := DueIn(s[..n], now);
    DueNext(s, n, now);
    assert s[..n + 1] == s;
    if j < n {
      a, b := DueInOrder(s[..n], now, i, j);
    } else {
      assert s[..n][i] in before;
      a :| a < |before| && before[a] == s[i];
      b := |before|;
    }
  }

  /** A timer of slot `o` of level `k` >= 1 that a catch-up fires outright, having covered 255
      slots of the level below: it is early by less than two slots of its own level. */
  ghost predicate Hasty(e: Element, k: nat, o: nat, from: nat, dest: nat, precision: nat)
    requires precision > 0
  {
    && Outright(k, o, from, dest)
    && dest - from > 255 * B(k - 1) + 1
    && e.tp / precision < dest + 2 * B(k) - 1
  }

  lemma FireBound(e: Element, k: nat, o: nat, from: nat, pos: nat, dest: nat, now: int, precision: nat)
    requires 0 < precision && k < LEVELS && pos < dest && dest * precision <= now
    requires Fits(e.tp / precision, k, o, from) && Due(k, o, from, pos + 1)
    requires k > 0 ==> Outright(k, o, from, pos + 1) && pos > from + 255 * B(k - 1)
    ensures e.tp <= now || Hasty(e, k, o, from, dest, precision)
  {
    hide Belongs, First, NextIndex;
    if k == 0 {
      TickOver(e.tp, e.tp / precision, dest, now, precision);
    }
  }

  lemma TickOver(tp: int, tick: int, dest: nat, now: int, precision: nat)
    requires 0 < precision && tick == tp / precision && 0 <= tick < dest && dest * precision <= now
    ensures tp <= now
  {
    FloorBounds(tp, precision);
    MulStep(tick, dest, precision);
  }

  lemma FireBounds(s: seq<Element>, k: nat, gone: seq<set<nat>>, gone': seq<set<nat>>,
                   from: nat, pos: nat, dest: nat, now: int, precision: nat)
    requires 0 < precision && k < LEVELS && pos < dest && dest * precision <= now
    requires Emptied(pos, k, gone, gone') && OnlyDue(gone', from, pos + 1)
    requires s != [] ==> SlotFits(s, k, Digit(pos, k), from, precision)
    requires k > 0 ==> Outright(k, Digit(pos, k), from, pos + 1) && pos > from + 255 * B(k - 1)
    ensures forall i :: 0 <= i < |s| ==> s[i].tp <= now || Hasty(s[i], k, Digit(pos, k), from, dest, precision)
  {
    hide Hasty, Fits, Due, Digit, Outright;
    assert Carry(pos, k, k);
    assert Digit(pos, k) in gone'[k];
    forall i | 0 <= i < |s|
      ensures s[i].tp <= now || Hasty(s[i], k, Digit(pos, k), from, dest, precision)
    {
      FireBound(s[i], k, Digit(pos, k), from, pos, dest, now, precision);
    }
  }

  /** What a catch-up from point `from` to `dest` may run, where `w` was in the slots before: a timer
      whose time has come by `now`, or one of a slot that it fires outright. */
  ghost predicate MayFire(e: Element, w: seq<seq<seq<Element>>>, from: nat, dest: nat, now: int, precision: nat)
    requires precision > 0
  {
    || e.tp <= now
    || exists k: nat, o: nat :: k < |w| && o < |w[k]| && e in w[k][o] && Hasty(e, k, o, from, dest, precision)
  }

  ghost predicate AllMayFire(fired: seq<Element>, n: nat, w: seq<seq<seq<Element>>>, from: nat, dest: nat, now: int,
                             precision: nat)
    requires precision > 0
  {
    forall j :: n <= j < |fired| ==> MayFire(fired[j], w, from, dest, now, precision)
  }

  /** Every timer of the slots fired outright on the way to `dest` has fired. */
  ghost predicate FiredOutright(w: seq<seq<seq<Element>>>, from: nat, dest: nat, fired: seq<Element>) {
    forall k: nat, o: nat :: Direct(k, o, from, dest) && k < |w| && o < |w[k]| ==>
      forall e :: e in w[k][o] ==> e in fired
  }

  /** In a catch-up that fires no slot outright, nothing is early. */
  lemma NotEarly(e: Element, w: seq<seq<seq<Element>>>, from: nat, dest: nat, now: int, precision: nat)
    requires precision > 0 && MayFire(e, w, from, dest, now, precision) && dest <= NextAbove(from + 255, 256)
    ensures e.tp <= now
  {
    OutrightFrom(from, dest);
  }

  /** Up to where the scan resumes beyond its limit, the timers fired early are exactly those whose
      time has not come and that are in the slots fired outright. */
  lemma EarlyExactly(e: Element, w: seq<seq<seq<Element>>>, from: nat, dest: nat, now: int, precision: nat,
                     before: seq<Element>, after: seq<Element>)
    requires precision > 0 && before <= after && AllMayFire(after, |before|, w, from, dest, now, precision)
    requires FiredOutright(w, from, dest, after) && dest <= Resume(from)
    requires e.tp > now && e !in before
    ensures e in after <==> exists k: nat, o: nat :: Direct(k, o, from, dest) && k < |w| && o < |w[k]| && e in w[k][o]
  {
    hide Direct, Resume;
    if e in after {
      assert after == before + after[|before|..];
      var j :| |before| <= j < |after| && after[j] == e;
      assert MayFire(after[j], w, from, dest, now, precision);
      var k: nat, o: nat :| k < |w| && o < |w[k]| && e in w[k][o] && Hasty(e, k, o, from, dest, precision);
      assert Direct(k, o, from, dest);
    }
  }

  class Timer {
    const precision: nat
    const slots: array2<seq<Element>>

    var point: nat
    var count: nat
    var complete: seq<Element>
    /** The callbacks run so far, in order. */
    var fired: seq<Element>

    /** The latest reading of the steady clock. */
    ghost var clock: nat
    ghost var started: seq<Element>
    ghost var place: seq<Place>

    ghost predicate Sized()
      reads this
    {
      && slots.Length0 == LEVELS && slots.Length1 == SLOTS
      && 100_000 <= precision
      && |place| == |started| == count
      && point * precision <= clock < point * precision + precision && clock < 0x8000_0000_0000_0000
      && (forall id :: 0 <= id < |started| ==> started[id].id == id && started[id].tp < 0x8000_0000_0000_0000)
      && (forall id :: 0 <= id < |place| ==> InRange(place[id]))
    }

    /** Every started timer is in exactly one place, once; `d` is the list being cascaded and
        `hand` the timer being moved, if any. */
    ghost predicate Kept(d: seq<Element>, hand: seq<Element>)
      reads this, slots
    {
      && Sized()
      && Holds(fired, Fired, started, place)
      && Holds(complete, Complete, started, place)
      && Holds(d, Cascaded, started, place)
      && Holds(hand, Loose, started, place)
      && (forall k, o :: 0 <= k < LEVELS && 0 <= o < SLOTS ==> Holds(slots[k, o], InSlot(k, o), started, place))
    }

    ghost predicate Valid()
      reads this, slots
    {
      Kept([], [])
    }

    function Tick(e: Element): int
      requires precision > 0
    {
      e.tp / precision
    }

    ghost predicate SlotsFit(p: nat)
      requires Sized()
      reads this, slots
    {
      forall k, o :: 0 <= k < LEVELS && 0 <= o < SLOTS ==> SlotFits(slots[k, o], k, o, p, precision)
    }

    /** Every waiting timer sits where its deadline will be met: in a slot that is looked at in
        time, or, past its deadline already, in the list that fires next. */
    ghost predicate OnTime()
      requires Sized()
      reads this, slots
    {
      && SlotsFit(point)
      && (forall i :: 0 <= i < |complete| ==> complete[i].tp <= point * precision)
    }

    /** What is in the slots. */
    ghost function Wheel(): (w: seq<seq<seq<Element>>>)
      requires slots.Length0 == LEVELS && slots.Length1 == SLOTS
      reads slots
      ensures |w| == LEVELS && forall k: nat :: k < LEVELS ==> |w[k]| == SLOTS
      ensures forall k: nat, o: nat :: k < LEVELS && o < SLOTS ==> w[k][o] == slots[k, o]
    {
      seq(LEVELS, k requires 0 <= k < LEVELS reads slots =>
        seq(SLOTS, o requires 0 <= o < SLOTS reads slots => slots[k, o]))
    }

    ghost function Snapshot(): (v: View)
      requires slots.Length0 == LEVELS && slots.Length1 == SLOTS
      reads this, slots
      ensures v.slots == Wheel()
    {
      View(point, clock, complete, fired, started, Wheel())
    }

    constructor (precision: nat)
      requires 100_000 <= precision
      ensures Valid() && OnTime() && fresh(slots)
      ensures this.precision == precision && point == 0 && clock == 0 && started == [] && fired == [] && complete == []
      ensures forall k, o :: 0 <= k < LEVELS && 0 <= o < SLOTS ==> slots[k, o] == []
    {
      hide Fits;
      this.precision := precision;
      slots := new seq<Element>[LEVELS, SLOTS]((_, _) => []);
      point, count, complete, fired := 0, 0, [], [];
      clock, started, place := 0, [], [];
    }

    /** Runs the callbacks of a detached list in order. */
    method Call(slist: seq<Element>)
      modifies this`fired
      ensures fired == old(fired) + slist
    {
      for i := 0 to |slist|
        invariant fired == old(fired) + slist[..i]
      {
        fired := fired + [slist[i]];
        assert slist[..i + 1] == slist[..i] + [slist[i]];
      }
      assert slist[..|slist|] == slist;
    }

    /** Empties one slot and fires it. */
    method Trigger(k: nat, o: nat, ghost d: seq<Element>)
      requires k < LEVELS && o < SLOTS && Kept(d, [])
      modifies this`fired, this`place, slots
      ensures Kept(d, [])
      ensures fired == old(fired) + old(slots[k, o]) && slots[k, o] == []
      ensures forall k', o' :: 0 <= k' < LEVELS && 0 <= o' < SLOTS && (k' != k || o' != o) ==>
                slots[k', o'] == old(slots[k', o'])
    {
      var slist := slots[k, o];
      slots[k, o] := [];
      Call(slist);
      ghost var p := InSlot(k, o);
      place := MoveAll(place, p, Fired);
      HoldsMoveAll(slist, p, old(fired), Fired, started, old(place));
      HoldsOther(complete, Complete, p, Fired, started, old(place));
      HoldsOther(d, Cascaded, p, Fired, started, old(place));
      HoldsOther([], Loose, p, Fired, started, old(place));
      forall k', o' | 0 <= k' < LEVELS && 0 <= o' < SLOTS
        ensures Holds(slots[k', o'], InSlot(k', o'), started, place)
      {
        if k' != k || o' != o {
          HoldsOther(old(slots[k', o']), InSlot(k', o'), p, Fired, started, old(place));
        }
      }
    }

    /** Fires the timers that were already past their deadline when they were started. */
    method TriggerComplete()
      requires Kept([], [])
      modifies this`fired, this`place, this`complete
      ensures Kept([], [])
      ensures fired == old(fired) + old(complete) && complete == []
    {
      var slist := complete;
      complete := [];
      Call(slist);
      place := MoveAll(place, Complete, Fired);
      HoldsMoveAll(slist, Complete, old(fired), Fired, started, old(place));
      HoldsOther([], Cascaded, Complete, Fired, started, old(place));
      HoldsOther([], Loose, Complete, Fired, started, old(place));
      forall k, o | 0 <= k < LEVELS && 0 <= o < SLOTS
        ensures Holds(slots[k, o], InSlot(k, o), started, place)
      {
        HoldsOther(slots[k, o], InSlot(k, o), Complete, Fired, started, old(place));
      }
    }

    /** Takes one slot of an upper level off the wheel, for dispatching later. */
    method PopAll(k: nat, o: nat, d: seq<Element>) returns (d': seq<Element>)
      requires k < LEVELS && o < SLOTS && Kept(d, [])
      modifies this`place, slots
      ensures d' == d + old(slots[k, o]) && Kept(d', [])
      ensures slots[k, o] == []
      ensures forall k', o' :: 0 <= k' < LEVELS && 0 <= o' < SLOTS && (k' != k || o' != o) ==>
                slots[k', o'] == old(slots[k', o'])
    {
      var slist := slots[k, o];
      slots[k, o] := [];
      d' := d + slist;
      ghost var p := InSlot(k, o);
      place := MoveAll(place, p, Cascaded);
      HoldsMoveAll(slist, p, d, Cascaded, started, old(place));
      HoldsOther(complete, Complete, p, Cascaded, started, old(place));
      HoldsOther(fired, Fired, p, Cascaded, started, old(place));
      HoldsOther([], Loose, p, Cascaded, started, old(place));
      forall k', o' | 0 <= k' < LEVELS && 0 <= o' < SLOTS
        ensures Holds(slots[k', o'], InSlot(k', o'), started, place)
      {
        if k' != k || o' != o {
          HoldsOther(old(slots[k', o']), InSlot(k', o'), p, Cascaded, started, old(place));
        }
      }
    }

    /** The timer in hand, just appended to the list `t` of place `q`, is recorded as being there. */
    ghost method Settle(element: Element, q: Place, t: seq<Element>, d: seq<Element>)
      requires Sized() && q != Loose && q != Cascaded && q != Fired && InRange(q)
      requires Holds([element], Loose, started, place) && Holds(t, q, started, place)
      requires Holds(fired, Fired, started, place) && Holds(d, Cascaded, started, place)
      requires if q == Complete then complete == t + [element] else Holds(complete, Complete, started, place)
      requires forall k, o :: 0 <= k < LEVELS && 0 <= o < SLOTS ==>
                 if q == InSlot(k, o) then slots[k, o] == t + [element]
                 else Holds(slots[k, o], InSlot(k, o), started, place)
      modifies this`place
      ensures Kept(d, [])
    {
      place := MoveAll(place, Loose, q);
      HoldsMoveAll([element], Loose, t, q, started, old(place));
      HoldsOther(fired, Fired, Loose, q, started, old(place));
      HoldsOther(d, Cascaded, Loose, q, started, old(place));
      if q != Complete {
        HoldsOther(complete, Complete, Loose, q, started, old(place));
      }
      forall k, o | 0 <= k < LEVELS && 0 <= o < SLOTS
        ensures Holds(slots[k, o], InSlot(k, o), started, place)
      {
        if q != InSlot(k, o) {
          HoldsOther(slots[k, o], InSlot(k, o), Loose, q, started, old(place));
        }
      }
    }

    /** The slot for a deadline after the current point: the highest non-zero byte of the
        distance chooses the level, and its sum with the point's byte the index. */
    method ChooseSlot(durVal: nat) returns (level: nat, offset: nat)
      requires durVal < B(8)
      ensures level == Level(point, point + durVal) && offset == Offset(point, point + durVal)
    {
      level, offset := 0, Digit(point, 0);
      var i := 7;
      while i >= 0
        invariant -1 <= i <= 7
        invariant level == 0 && offset == Digit(point, 0)
        invariant i >= 0 ==> TopByte(durVal, 7) == TopByte(durVal, i)
        invariant i < 0 ==> TopByte(durVal, 7) == 0 && Digit(durVal, 0) == 0
      {
        if Digit(durVal, i) > 0 {
          level := i;
          offset := (Digit(durVal, i) + Digit(point, i)) % 256;
          break;
        }
        i := i - 1;
      }
    }

    /** Puts one timer in its slot, or, when it is not the scanning thread that asks and the
        deadline has passed, in the list that fires next. */
    method Dispatch(element: Element, mainloop: bool, ghost d: seq<Element>)
      requires Kept(d, [element])
      requires mainloop ==> point * precision < element.tp
      modifies this`complete, this`place, slots
      ensures Kept(d, [])
      ensures old(OnTime()) ==> OnTime()
      ensures !mainloop && element.tp <= point * precision ==>
                complete == old(complete) + [element]
                && forall k, o :: 0 <= k < LEVELS && 0 <= o < SLOTS ==> slots[k, o] == old(slots[k, o])
      ensures mainloop || point * precision < element.tp ==>
                complete == old(complete) && point <= Tick(element)
                && Appended(element, Level(point, Tick(element)), Offset(point, Tick(element)))
    {
      hide Fits, SlotFits, Level, Offset;
      var lastTime := point * precision;
      if !mainloop && element.tp <= lastTime {
        PushComplete(element, d);
      } else {
        var durVal := (element.tp - lastTime) / precision;
        ghost var tick := Tick(element);
        assert [element][0] == element;
        SlotFor(element.tp, point, precision, lastTime, durVal, tick);
        var level, offset := ChooseSlot(durVal);
        Append(element, level, offset, d);
      }
    }

    twostate predicate Appended(element: Element, level: nat, offset: nat)
      requires slots.Length0 == LEVELS && slots.Length1 == SLOTS
      reads this, slots
    {
      forall k, o :: 0 <= k < LEVELS && 0 <= o < SLOTS ==>
        slots[k, o] == old(slots[k, o]) + if k == level && o == offset then [element] else []
    }

    method Append(element: Element, level: nat, offset: nat, ghost d: seq<Element>)
      requires Kept(d, [element]) && level < LEVELS && offset < SLOTS
      requires Fits(Tick(element), level, offset, point)
      modifies this`place, slots
      ensures Kept(d, []) && Appended(element, level, offset)
      ensures old(OnTime()) ==> OnTime()
    {
      slots[level, offset] := slots[level, offset] + [element];
      Settle(element, InSlot(level, offset), old(slots[level, offset]), d);
    }

    method PushComplete(element: Element, ghost d: seq<Element>)
      requires Kept(d, [element]) && element.tp <= point * precision
      modifies this`complete, this`place
      ensures Kept(d, []) && complete == old(complete) + [element]
      ensures old(OnTime()) ==> OnTime()
    {
      complete := complete + [element];
      Settle(element, Complete, old(complete), d);
    }

    /** The first timer of the cascaded list is now at place `q`, not yet appended to its list `t`. */
    ghost method MoveFirst(element: Element, q: Place, d: seq<Element>, t: seq<Element>)
      requires Sized() && q in {Fired, Loose} && d != [] && d[0] == element
      requires Kept(d, []) && Holds(t, q, started, place)
      modifies this`place
      ensures Sized() && element.id < |place| && place == old(place)[element.id := q]
      ensures Holds(t + [element], q, started, place) && Holds(d[1..], Cascaded, started, place)
      ensures Holds(complete, Complete, started, place)
      ensures q == Loose ==> Holds(fired, Fired, started, place)
      ensures q == Fired ==> Holds([], Loose, started, place)
      ensures forall k, o :: 0 <= k < LEVELS && 0 <= o < SLOTS ==> Holds(slots[k, o], InSlot(k, o), started, place)
    {
      HoldsMoveFirst(d, Cascaded, t, q, started, place);
      ghost var was := place;
      place := place[element.id := q];
      hide Holds;
      MovedOther(complete, Complete, d, q, started, was);
      if q == Loose {
        MovedOther(fired, Fired, d, q, started, was);
      } else {
        MovedOther([], Loose, d, q, started, was);
      }
      forall k, o | 0 <= k < LEVELS && 0 <= o < SLOTS
        ensures Holds(slots[k, o], InSlot(k, o), started, place)
      {
        MovedOther(slots[k, o], InSlot(k, o), d, q, started, was);
      }
    }

    /** StartTimer: the new timer waits in a slot that is in time for it, or, if its deadline has
        passed, in the list that the next RunOnce fires first. */
    method StartTimer(tp: int) returns (element: Element)
      requires Valid() && tp < 0x8000_0000_0000_0000
      modifies this`complete, this`count, this`started, this`place, slots
      ensures Valid()
      ensures element == Element(old(count), tp) && started == old(started) + [element]
      ensures old(OnTime()) ==> OnTime()
      ensures tp <= point * precision ==>
                complete == old(complete) + [element]
                && forall k, o :: 0 <= k < LEVELS && 0 <= o < SLOTS ==> slots[k, o] == old(slots[k, o])
      ensures point * precision < tp ==>
                complete == old(complete) && point <= Tick(element)
                && Appended(element, Level(point, Tick(element)), Offset(point, Tick(element)))
    {
      hide SlotFits;
      element := Element(count, tp);
      count := count + 1;
      Admit(element);
      Dispatch(element, false, []);
    }

    /** A new timer is started and in hand. */
    ghost method Admit(element: Element)
      requires |started| + 1 == count && |place| == |started| && element.id == |started|
      requires element.tp < 0x8000_0000_0000_0000
      requires 100_000 <= precision && slots.Length0 == LEVELS && slots.Length1 == SLOTS
      requires point * precision <= clock < point * precision + precision && clock < 0x8000_0000_0000_0000
      requires forall id :: 0 <= id < |started| ==> started[id].id == id && started[id].tp < 0x8000_0000_0000_0000
      requires forall id :: 0 <= id < |place| ==> InRange(place[id])
      requires Holds(fired, Fired, started, place) && Holds(complete, Complete, started, place)
      requires Holds([], Cascaded, started, place) && Holds([], Loose, started, place)
      requires forall k, o :: 0 <= k < LEVELS && 0 <= o < SLOTS ==> Holds(slots[k, o], InSlot(k, o), started, place)
      modifies this`started, this`place
      ensures started == old(started) + [element] && Kept([], [element])
    {
      HoldsExtend(fired, Fired, started, place, element);
      HoldsExtend(complete, Complete, started, place, element);
      HoldsExtend([], Cascaded, started, place, element);
      forall k, o | 0 <= k < LEVELS && 0 <= o < SLOTS
        ensures Holds(slots[k, o], InSlot(k, o), started + [element], place + [Loose])
      {
        HoldsExtend(slots[k, o], InSlot(k, o), started, place, element);
      }
      started := started + [element];
      place := place + [Loose];
      assert forall id :: 0 <= id < |old(place)| ==> old(place)[id] != Loose;
    }

    method DispatchNext(element: Element, now: int, ghost d: seq<Element>)
      requires d != [] && d[0] == element && Kept(d, []) && point * precision <= now
      modifies this`fired, this`complete, this`place, slots
      ensures Kept(d[1..], []) && complete == old(complete)
      ensures fired == old(fired) + if element.tp <= now then [element] else []
      ensures old(OnTime()) ==> OnTime()
      ensures forall k, o :: 0 <= k < LEVELS && 0 <= o < SLOTS ==> Grown(old(slots[k, o]), slots[k, o], now)
    {
      hide SlotFits, Holds;
      if element.tp <= now {
        MoveFirst(element, Fired, d, fired);
        fired := fired + [element];
      } else {
        MoveFirst(element, Loose, d, []);
        assert [] + [element] == [element];
        Redispatch(element, now, d[1..]);
      }
    }

    method Redispatch(element: Element, now: int, ghost d: seq<Element>)
      requires Kept(d, [element]) && point * precision <= now < element.tp
      modifies this`complete, this`place, slots
      ensures Kept(d, []) && complete == old(complete)
      ensures old(OnTime()) ==> OnTime()
      ensures forall k, o :: 0 <= k < LEVELS && 0 <= o < SLOTS ==> Grown(old(slots[k, o]), slots[k, o], now)
    {
      Dispatch(element, true, d);
    }

    /** Fires the cascaded timers that are due and puts the others back, nearer their deadline. */
    method DispatchAll(slist: seq<Element>, now: int)
      requires Kept(slist, []) && point * precision <= now
      modifies this`fired, this`complete, this`place, slots
      ensures Valid() && complete == old(complete)
      ensures fired == old(fired) + DueIn(slist, now)
      ensures forall j :: |old(fired)| <= j < |fired| ==> fired[j].tp <= now
      ensures old(OnTime()) ==> OnTime()
      ensures forall k, o :: 0 <= k < LEVELS && 0 <= o < SLOTS ==> Grown(old(slots[k, o]), slots[k, o], now)
    {
      hide Holds, SlotFits, DueIn;
      NoneDueIn(now);
      assert slist[0..] == slist && slist[..0] == [];
      var i := 0;
      while i < |slist|
        invariant 0 <= i <= |slist| && Kept(slist[i..], []) && complete == old(complete)
        invariant fired == old(fired) + DueIn(slist[..i], now)
        invariant old(OnTime()) ==> OnTime()
        invariant forall k, o :: 0 <= k < LEVELS && 0 <= o < SLOTS ==> Grown(old(slots[k, o]), slots[k, o], now)
      {
        label Before:
        assert slist[i..][1..] == slist[i + 1..];
        DueNext(slist, i, now);
        DispatchNext(slist[i], now, slist[i..]);
        forall k, o | 0 <= k < LEVELS && 0 <= o < SLOTS
          ensures Grown(old(slots[k, o]), slots[k, o], now)
        {
          GrownTwice(old(slots[k, o]), old@Before(slots[k, o]), slots[k, o], now);
        }
        i := i + 1;
      }
      assert slist[..|slist|] == slist && slist[|slist|..] == [];
      DueLater(old(fired), slist, now);
    }

    /** Looks at one position of the scan: fires the slot of the triggering level and, as long as
        the byte just used is zero, takes the slot of the next level off for cascading. */
    method Look(pos: nat, level: nat, triggerSlots: seq<nat>, dispatchers: seq<Element>, ghost gone: seq<set<nat>>)
      returns (triggerSlots': seq<nat>, dispatchers': seq<Element>, ghost gone': seq<set<nat>>)
      requires level < LEVELS && (pos > 0 ==> B(level) <= pos) && pos < B(8) && |triggerSlots| == |gone| == LEVELS
      requires Kept(dispatchers, [])
      requires forall k, o :: 0 <= k < LEVELS && 0 <= o < SLOTS && o in gone[k] ==> slots[k, o] == []
      modifies this`fired, this`place, slots
      ensures Kept(dispatchers', [])
      ensures Counted(pos, level, triggerSlots, triggerSlots') && Emptied(pos, level, gone, gone')
      ensures |triggerSlots'| == LEVELS
      ensures fired == old(fired) + old(slots[level, Digit(pos, level)])
      ensures |gone'| == LEVELS && forall k :: 0 <= k < LEVELS ==> gone[k] <= gone'[k]
      ensures forall k, o :: 0 <= k < LEVELS && 0 <= o < SLOTS ==>
                slots[k, o] == if o in gone'[k] then [] else old(slots[k, o])
    {
      hide Digit, Holds;
      var lv := level;
      var slotIdx := Digit(pos, lv);
      Trigger(lv, slotIdx, dispatchers);
      triggerSlots' := triggerSlots[lv := triggerSlots[lv] + 1];
      gone' := gone[lv := gone[lv] + {slotIdx}];
      triggerSlots', dispatchers', gone' := Climb(pos, level, triggerSlots', dispatchers, gone');
    }

    /** Climbs from `level` as long as the byte just used is zero, taking one slot of each higher
        level off the wheel. */
    method Climb(pos: nat, level: nat, triggerSlots: seq<nat>, dispatchers: seq<Element>, ghost gone: seq<set<nat>>)
      returns (triggerSlots': seq<nat>, dispatchers': seq<Element>, ghost gone': seq<set<nat>>)
      requires level < LEVELS && (pos > 0 ==> B(level) <= pos) && pos < B(8) && |triggerSlots| == |gone| == LEVELS
      requires Kept(dispatchers, [])
      modifies this`place, slots
      ensures Kept(dispatchers', []) && |triggerSlots'| == |gone'| == LEVELS
      ensures forall k: nat :: k < LEVELS ==>
                triggerSlots'[k] == triggerSlots[k] + (if k != level && Carry(pos, level, k) then 1 else 0)
      ensures forall k: nat :: k < LEVELS ==>
                gone'[k] == gone[k] + (if k != level && Carry(pos, level, k) then {Digit(pos, k)} else {})
      ensures forall k, o :: 0 <= k < LEVELS && 0 <= o < SLOTS ==>
                slots[k, o] == if k != level && Carry(pos, level, k) && o == Digit(pos, k) then [] else old(slots[k, o])
    {
      hide Digit, Holds;
      var lv := level;
      var slotIdx := Digit(pos, lv);
      triggerSlots', dispatchers', gone' := triggerSlots, dispatchers, gone;
      while pos > 0 && slotIdx == 0
        invariant level <= lv < LEVELS && slotIdx == Digit(pos, lv) && Carry(pos, level, lv)
        invariant Kept(dispatchers', [])
        invariant |triggerSlots'| == |gone'| == LEVELS
        invariant forall k: nat :: k < LEVELS ==>
                    triggerSlots'[k] == triggerSlots[k] + (if level < k <= lv then 1 else 0)
        invariant forall k: nat :: k < LEVELS ==>
                    gone'[k] == gone[k] + (if level < k <= lv then {Digit(pos, k)} else {})
        invariant forall k, o :: 0 <= k < LEVELS && 0 <= o < SLOTS ==>
                    slots[k, o] == if level < k <= lv && o == Digit(pos, k) then [] else old(slots[k, o])
        decreases LEVELS - lv
      {
        assert lv < 7 by {
          if lv == 7 {
            ClimbStops(pos, level);
          }
        }
        lv := lv + 1;
        slotIdx := Digit(pos, lv);
        dispatchers' := PopAll(lv, slotIdx, dispatchers');
        triggerSlots' := triggerSlots'[lv := triggerSlots'[lv] + 1];
        gone' := gone'[lv := gone'[lv] + {slotIdx}];
      }
      assert forall k: nat :: k < LEVELS ==> (Carry(pos, level, k) <==> level <= k <= lv);
    }

    /** RunOnce at clock reading `now`. The slots it empties are returned as `gone`: only slots
        that a tick-by-tick scan from the old to the new point would look at, and all of those if
        and only if the scan catches up. If it misses no timer, everything due has fired. */
    method RunOnce(now: int) returns (ghost gone: seq<set<nat>>)
      requires Valid() && clock <= now < 0x8000_0000_0000_0000
      modifies this, slots
      ensures Valid() && clock == now && point == now / precision && old(point) <= point
      ensures started == old(started) && complete == [] && old(fired) <= fired
      ensures ScanFinished(gone, old(point), point) && |gone| == LEVELS
      ensures forall k, o :: 0 <= k < LEVELS && 0 <= o < SLOTS ==>
                Grown(if o in gone[k] then [] else old(slots[k, o]), slots[k, o], now)
      ensures old(OnTime()) && MissesNone(old(point), point) ==> OnTime()
      // What fires before its time is in a slot fired outright, and every timer of these fires.
      ensures old(OnTime()) ==> AllMayFire(fired, |old(fired)|, old(Wheel()), old(point), point, now, precision)
      ensures FiredOutright(old(Wheel()), old(point), point, fired)
      // Like a plain set of timers: everything due has fired ...
      ensures old(OnTime()) && MissesNone(old(point), point) ==>
                forall e :: e in started && Tick(e) < point ==> e in fired
      // ... and, in a catch-up that fires no slot outright, nothing else has.
      ensures old(OnTime()) && point <= NextAbove(old(point) + 255, 256) ==>
                OnTime() && forall j :: |old(fired)| <= j < |fired| ==> fired[j].tp <= now
    {
      hide Holds, SlotFits, ScanFinished, MayFire, FiredOutright, MissesNone, Wheel, NextAbove;
      ghost var w := Wheel();
      ghost var from, late := point, complete;
      TriggerComplete();
      ghost var first := fired;
      var destVal := now / precision;
      NewPoint(from, destVal, clock, now, precision);
      if destVal <= point {
        gone := seq(LEVELS, _ => {});
        NothingScanned(from);
        NothingOutright(w, from, fired);
        clock := now;
      } else {
        gone := CatchUp(destVal, now);
      }
      if old(OnTime()) {
        LateMayFire(late, w, from, destVal, now, precision);
        assert forall j :: |old(fired)| <= j < |first| ==> fired[j] == late[j - |old(fired)|];
        Conclude(w, from, now, |old(fired)|);
      }
    }

    /** What the placement invariant means for the timers: whoever is due has fired. */
    lemma DueHaveFired(e: Element)
      requires Valid() && OnTime() && e in started && Tick(e) < point
      ensures e in fired || e in complete
    {
      var id := e.id;
      var p := place[id];
      if p.InSlot? {
        assert e in slots[p.level, p.offset];
        NextVisitBasics(p.level, p.offset, point);
      }
    }

    lemma Conclude(w: seq<seq<seq<Element>>>, from: nat, now: int, n: nat)
      requires Valid() && complete == [] && from <= point && n <= |fired|
      requires MissesNone(from, point) ==> OnTime()
      requires forall j :: n <= j < |fired| ==> MayFire(fired[j], w, from, point, now, precision)
      ensures MissesNone(from, point) ==> forall e :: e in started && Tick(e) < point ==> e in fired
      ensures point <= NextAbove(from + 255, 256) ==>
                OnTime() && forall j :: n <= j < |fired| ==> fired[j].tp <= now
    {
      hide MayFire;
      if MissesNone(from, point) {
        forall e | e in started && Tick(e) < point
          ensures e in fired
        {
          DueHaveFired(e);
        }
      }
      if point <= NextAbove(from + 255, 256) {
        LimitFar(from);
        NextAboveBounds(from + 255, 256);
        forall j | n <= j < |fired|
          ensures fired[j].tp <= now
        {
          NotEarly(fired[j], w, from, point, now, precision);
        }
      }
    }

    method CatchUp(destVal: nat, now: int) returns (ghost gone: seq<set<nat>>)
      requires Valid() && clock <= now < 0x8000_0000_0000_0000 && point < destVal < MAX_TICK
      requires destVal * precision <= now < destVal * precision + precision && complete == []
      modifies this, slots
      ensures Valid() && clock == now && point == destVal
      ensures started == old(started) && complete == [] && old(fired) <= fired
      ensures ScanFinished(gone, old(point), destVal) && |gone| == LEVELS
      ensures forall k, o :: 0 <= k < LEVELS && 0 <= o < SLOTS ==>
                Grown(if o in gone[k] then [] else old(slots[k, o]), slots[k, o], now)
      ensures old(OnTime()) && MissesNone(old(point), destVal) ==> OnTime()
      ensures old(OnTime()) ==> AllMayFire(fired, |old(fired)|, old(Wheel()), old(point), destVal, now, precision)
      ensures FiredOutright(old(Wheel()), old(point), destVal, fired)
    {
      hide Holds, SlotFits, Scanning, Stray, Fits, Due, Digit, ScanFinished, MayFire, FiredOutright, MissesNone, Wheel;
      ghost var w := Wheel();
      var last := point;
      point := destVal;
      clock := now;
      var dispatchers;
      dispatchers, gone := Scan(last, now);
      label Scanned:
      DispatchAll(dispatchers, now);
      StillOutright(w, last, destVal, old@Scanned(fired), fired);
      forall j | |old(fired)| <= j < |fired|
        ensures MayFire(fired[j], w, last, destVal, now, precision) || !old(OnTime())
      {
        DueMayFire(fired[j], w, last, destVal, now, precision);
        assert j < |old@Scanned(fired)| ==> fired[j] == old@Scanned(fired)[j];
      }
    }

    /** The slots hold what they held before, except those that have been emptied. */
    ghost predicate Left(w: seq<seq<seq<Element>>>, gone: seq<set<nat>>)
      requires slots.Length0 == LEVELS && slots.Length1 == SLOTS
      reads slots
    {
      && |w| == |gone| == LEVELS && (forall k: nat :: k < LEVELS ==> |w[k]| == SLOTS)
      && forall k: nat, o: nat :: k < LEVELS && o < SLOTS ==> slots[k, o] == if o in gone[k] then [] else w[k][o]
    }

    /** The scan from `last` up to the point just published: fires slots of the triggering level
        and collects those of the levels it climbs to. */
    method Scan(last: nat, now: int) returns (dispatchers: seq<Element>, ghost gone: seq<set<nat>>)
      requires Valid() && last < point < MAX_TICK && point * precision <= now
      modifies this`fired, this`place, slots
      ensures Kept(dispatchers, []) && old(fired) <= fired
      ensures ScanFinished(gone, last, point) && Left(old(Wheel()), gone)
      ensures old(SlotsFit(last)) && MissesNone(last, point) ==> SlotsFit(point)
      ensures old(SlotsFit(last)) ==> AllMayFire(fired, |old(fired)|, old(Wheel()), last, point, now, precision)
      ensures FiredOutright(old(Wheel()), last, point, fired)
    {
      hide Holds, SlotFits, Scanning, Stray, Stride, ScanFinished;
      hide AllMayFire, FiredOutright, MissesNone, Tracks, TracksTimers, Left;
      ghost var w, n: nat := Wheel(), |fired|;
      var delta := point - last;
      var triggerLevel: nat := 0;
      var triggerSlots: seq<nat> := seq(LEVELS, _ => 0);
      dispatchers := [];
      gone := seq(LEVELS, _ => {});
      var i: nat := 0;
      ghost var covered: nat := last;
      TrackStart(last);
      NothingFired(w, last, point, fired, now, precision);
      NothingGone(w);
      while i < delta
        invariant Kept(dispatchers, []) && old(fired) <= fired
        invariant Tracking(last, last + i, covered, triggerLevel, triggerSlots, gone) && covered <= point
        invariant Left(w, gone) && FiredOutright(w, last, covered, fired)
        invariant old(SlotsFit(last)) ==> SlotsFit(last) && AllMayFire(fired, n, w, last, point, now, precision)
        decreases delta - i
      {
        var pos := last + i;
        triggerLevel, triggerSlots, dispatchers, gone :=
          ScanTurn(last, pos, triggerLevel, triggerSlots, dispatchers, now, covered, gone, w, n);
        i := i + Stride(pos, triggerLevel);
        covered := pos + 1;
      }
      DirectDone(last, last + i, covered, triggerLevel, triggerSlots, gone, point);
      AllOutright(w, last, covered, point, fired);
      ScanResult(last, last + i, covered, triggerLevel, triggerSlots, gone, point);
      ScanTracks(gone, last, point);
      if old(SlotsFit(last)) && MissesNone(last, point) {
        RestFits(last, gone, w);
      }
    }

    lemma NothingGone(w: seq<seq<seq<Element>>>)
      requires slots.Length0 == LEVELS && slots.Length1 == SLOTS && w == Wheel()
      ensures Left(w, seq(LEVELS, _ => {}))
    {
    }

    /** One turn of the scan loop, with what it adds to the timers that have fired. */
    method ScanTurn(last: nat, pos: nat, level: nat, triggerSlots: seq<nat>, dispatchers: seq<Element>, ghost now: int,
                    ghost covered: nat, ghost gone: seq<set<nat>>, ghost w: seq<seq<seq<Element>>>, ghost n: nat)
      returns (level': nat, triggerSlots': seq<nat>, dispatchers': seq<Element>, ghost gone': seq<set<nat>>)
      requires Kept(dispatchers, []) && last <= pos < point < MAX_TICK && point * precision <= now
      requires Tracking(last, pos, covered, level, triggerSlots, gone)
      requires Left(w, gone) && FiredOutright(w, last, covered, fired) && n <= |fired|
      modifies this`fired, this`place, slots
      ensures Kept(dispatchers', []) && old(fired) <= fired && level' < LEVELS
      ensures Tracking(last, pos + Stride(pos, level'), pos + 1, level', triggerSlots', gone')
      ensures Left(w, gone') && FiredOutright(w, last, pos + 1, fired)
      ensures old(SlotsFit(last) && AllMayFire(fired, n, w, last, point, now, precision)) ==>
                SlotsFit(last) && AllMayFire(fired, n, w, last, point, now, precision)
    {
      hide Holds, SlotFits, Scanning, Stray, Stride, FiredOutright, AllMayFire, Hasty, Direct, Digit;
      ScanHead(last, pos, covered, level, triggerSlots, gone);
      ghost var o, was := Digit(pos, level), fired;
      ghost var s := slots[level, o];
      level', triggerSlots', dispatchers', gone' :=
        ScanOne(last, pos, level, triggerSlots, dispatchers, now, covered, gone);
      SlotFired(w, level, o, s, gone, last, covered, pos, was, fired);
      if old(SlotsFit(last) && AllMayFire(fired, n, w, last, point, now, precision)) {
        MoreMayFire(w, level, o, s, last, point, now, precision, n, was, fired);
      }
    }

    /** One position of the scan, and the level that triggers next. */
    method ScanOne(last: nat, pos: nat, level: nat, triggerSlots: seq<nat>, dispatchers: seq<Element>, ghost now: int,
                   ghost covered: nat, ghost gone: seq<set<nat>>)
      returns (level': nat, triggerSlots': seq<nat>, dispatchers': seq<Element>, ghost gone': seq<set<nat>>)
      requires Kept(dispatchers, []) && last <= pos < point < MAX_TICK && point * precision <= now
      requires Tracking(last, pos, covered, level, triggerSlots, gone)
      requires |gone| == LEVELS
      requires forall k, o :: 0 <= k < LEVELS && 0 <= o < SLOTS && o in gone[k] ==> slots[k, o] == []
      modifies this`fired, this`place, slots
      ensures Kept(dispatchers', []) && old(fired) <= fired
      ensures level' < LEVELS && |gone'| == LEVELS
      ensures Tracking(last, pos + Stride(pos, level'), pos + 1, level', triggerSlots', gone')
      ensures forall k :: 0 <= k < LEVELS ==> gone[k] <= gone'[k]
      ensures forall k, o :: 0 <= k < LEVELS && 0 <= o < SLOTS ==>
                slots[k, o] == if o in gone'[k] then [] else old(slots[k, o])
      ensures fired == old(fired) + old(slots[level, Digit(pos, level)])
      ensures old(SlotsFit(last)) ==>
                && SlotsFit(last)
                && forall e :: e in old(slots[level, Digit(pos, level)]) ==>
                     e.tp <= now || Hasty(e, level, Digit(pos, level), last, point, precision)
      ensures forall k: nat, o: nat :: Direct(k, o, last, pos + 1) && !Direct(k, o, last, covered) ==>
                k == level && o == Digit(pos, level) && o !in gone[k]
    {
      hide Holds, Scanning, Stray, Fits, Due, Carry, Digit, Stride, Hasty, Emptied, Counted, OnlyDue, Direct, Outright;
      BValues();
      ScanHead(last, pos, covered, level, triggerSlots, gone);
      FiresOutright(last, pos, covered, level, triggerSlots, gone);
      triggerSlots', dispatchers', gone' := Look(pos, level, triggerSlots, dispatchers, gone);
      level' := level;
      if triggerSlots'[level] == 256 {
        level' := level + 1;
      }
      TrackStep(last, pos, covered, level, triggerSlots, gone, triggerSlots', gone', level');
      if old(SlotsFit(last)) {
        FireBounds(old(slots[level, Digit(pos, level)]), level, gone, gone', last, pos, point, now, precision);
      }
    }

    /** The slots a scan that misses no timer has not emptied are in time, seen from the new point. */
    lemma RestFits(last: nat, gone: seq<set<nat>>, w: seq<seq<seq<Element>>>)
      requires Sized() && last <= point && TracksTimers(gone, last, point) && SlotsFit(last) && Left(w, gone)
      ensures SlotsFit(point)
    {
      hide SlotFits, Fits, Due, Vacant;
      forall k, o | 0 <= k < LEVELS && 0 <= o < SLOTS
        ensures SlotFits(slots[k, o], k, o, point, precision)
      {
        if Vacant(last, point) && k == 4 && o == (First(4, last) + 255) % 256 {
          NobodyThere(slots[k, o], o, last, point, precision);
        }
        StillFits(slots[k, o], k, o, last, point, precision);
      }
    }
  }

  lemma NobodyThere(s: seq<Element>, o: nat, from: nat, dest: nat, precision: nat)
    requires precision > 0 && SlotFits(s, 4, o, from, precision)
    requires Vacant(from, dest) && o == (First(4, from) + 255) % 256
    ensures s == []
  {
    assert s != [] ==> Fits(s[0].tp / precision, 4, o, from);
    VacantIndex(from, dest);
  }

  lemma ScanTracks(gone: seq<set<nat>>, from: nat, dest: nat)
    requires ScanFinished(gone, from, dest)
    ensures MissesNone(from, dest) ==> TracksTimers(gone, from, dest)
  {
  }

  lemma NothingScanned(from: nat)
    requires from <= MAX_TICK
    ensures ScanFinished(seq(LEVELS, _ => {}), from, from)
  {
    TrackStart(from);
    ScanResult(from, from, from, 0, seq(LEVELS, _ => 0), seq(LEVELS, _ => {}), from);
  }

  lemma NewPoint(point: nat, dest: int, clock: nat, now: nat, precision: nat)
    requires 100_000 <= precision && dest == now / precision && now < 0x8000_0000_0000_0000
    requires point * precision <= clock <= now
    ensures point <= dest < MAX_TICK && dest * precision <= now < dest * precision + precision
    ensures point * precision <= dest * precision
  {
    FloorBounds(now, precision);
    TickBound(now, precision, dest);
    MulCancelLt(point, dest + 1, precision) by {
      Distribute(dest, 1, precision);
    }
    MulMono(point, dest, precision);
  }

  /** A catch-up of up to 2^32 ticks is always within the limit. */
  lemma LimitFar(from: nat)
    ensures from + 0x1_0000_0000 <= CatchUpLimit(from)
  {
    BValues();
    FirstBounds(4, from);
    Distribute(First(4, from), 1, B(4));
  }

  lemma DueMayFire(e: Element, w: seq<seq<seq<Element>>>, from: nat, dest: nat, now: int, precision: nat)
    requires 0 < precision
    ensures e.tp <= now ==> MayFire(e, w, from, dest, now, precision)
  {
  }

  lemma LateMayFire(s: seq<Element>, w: seq<seq<seq<Element>>>, from: nat, dest: nat, now: int, precision: nat)
    requires 0 < precision && from * precision <= now
    requires forall i :: 0 <= i < |s| ==> s[i].tp <= from * precision
    ensures forall i :: 0 <= i < |s| ==> MayFire(s[i], w, from, dest, now, precision)
  {
  }

  lemma NothingOutright(w: seq<seq<seq<Element>>>, from: nat, fired: seq<Element>)
    ensures FiredOutright(w, from, from, fired)
  {
    forall k: nat, o: nat
      ensures !Direct(k, o, from, from)
    {
      if Direct(k, o, from, from) {
        NextVisitBasics(k, o, from);
      }
    }
  }

  lemma NothingFired(w: seq<seq<seq<Element>>>, from: nat, dest: nat, fired: seq<Element>, now: int, precision: nat)
    requires precision > 0
    ensures FiredOutright(w, from, from, fired) && AllMayFire(fired, |fired|, w, from, dest, now, precision)
  {
    NothingOutright(w, from, fired);
  }

  lemma StillOutright(w: seq<seq<seq<Element>>>, from: nat, dest: nat, before: seq<Element>, after: seq<Element>)
    requires FiredOutright(w, from, dest, before) && before <= after
    ensures FiredOutright(w, from, dest, after)
  {
    assert forall e :: e in before ==> e in after;
  }

  lemma AllOutright(w: seq<seq<seq<Element>>>, from: nat, covered: nat, dest: nat, fired: seq<Element>)
    requires FiredOutright(w, from, covered, fired)
    requires forall k: nat, o: nat :: Direct(k, o, from, dest) ==> Direct(k, o, from, covered)
    ensures FiredOutright(w, from, dest, fired)
  {
  }

  /** The slot fired at one position completes the slots fired outright up to there. */
  lemma SlotFired(w: seq<seq<seq<Element>>>, k: nat, o: nat, s: seq<Element>, gone: seq<set<nat>>, from: nat,
                  covered: nat, pos: nat, before: seq<Element>, after: seq<Element>)
    requires k < LEVELS && o < SLOTS && |gone| == LEVELS && after == before + s
    requires |w| == LEVELS && |w[k]| == SLOTS && s == if o in gone[k] then [] else w[k][o]
    requires FiredOutright(w, from, covered, before)
    requires forall k': nat, o': nat :: Direct(k', o', from, pos + 1) && !Direct(k', o', from, covered) ==>
               k' == k && o' == o && o' !in gone[k']
    ensures FiredOutright(w, from, pos + 1, after)
  {
    hide Direct;
    assert forall e :: e in before || e in s ==> e in after;
  }

  lemma MoreMayFire(w: seq<seq<seq<Element>>>, k: nat, o: nat, s: seq<Element>, from: nat, dest: nat, now: int,
                    precision: nat, n: nat, before: seq<Element>, after: seq<Element>)
    requires k < |w| && o < |w[k]| && 0 < precision && after == before + s && n <= |before|
    requires s == [] || s == w[k][o]
    requires AllMayFire(before, n, w, from, dest, now, precision)
    requires forall e :: e in s ==> e.tp <= now || Hasty(e, k, o, from, dest, precision)
    ensures AllMayFire(after, n, w, from, dest, now, precision)
  {
    hide Hasty;
    forall j | n <= j < |after|
      ensures MayFire(after[j], w, from, dest, now, precision)
    {
      if j < |before| {
        assert after[j] == before[j];
      } else {
        assert after[j] in s;
      }
    }
  }

  /** A slot that the scan has not come to is still in time, seen from the new point. */
  lemma StillFits(s: seq<Element>, k: nat, o: nat, from: nat, dest: nat, precision: nat)
    requires 0 < precision && o < SLOTS && from <= dest
    requires s != [] ==> SlotFits(s, k, o, from, precision) && !Due(k, o, from, dest)
    ensures SlotFits(s, k, o, dest, precision)
  {
    if s != [] {
      NextVisitStable(k, o, from, dest);
      FloorBounds(from, B(k));
      FloorBounds(dest, B(k));
      Distribute(dest / B(k), 1, B(k));
      MulCancelLt(from / B(k), dest / B(k) + 1, B(k));
    }
  }

  /** The slot chosen for a deadline after the point is in time for it. */
  lemma SlotFor(tp: int, point: nat, precision: nat, lastTime: nat, dur: int, tick: int)
    requires 100_000 <= precision && lastTime == point * precision <= tp < 0x8000_0000_0000_0000
    requires dur == (tp - lastTime) / precision && tick == tp / precision
    ensures 0 <= dur < B(8) && tick == point + dur
    ensures Fits(tick, Level(point, tick), Offset(point, tick), point)
  {
    TickDistance(tp, point, precision, dur, tick);
    TickBound(tp, precision, tick);
    Placement(point, tick);
  }

  lemma TickDistance(tp: int, point: nat, precision: nat, dur: int, tick: int)
    requires 0 < precision && point * precision <= tp
    requires dur == (tp - point * precision) / precision && tick == tp / precision
    ensures 0 <= dur && tick == point + dur
  {
    var x: nat := tp - point * precision;
    Quotient(x, precision, dur, point, tp);
  }

  lemma Quotient(x: nat, d: nat, q: int, p: nat, y: int)
    requires d > 0 && q == x / d && y == x + p * d
    ensures 0 <= q && y / d == q + p
  {
    FloorBounds(x, d);
    Distribute(q, p, d);
    DivModUnique(y, d, q + p, x - q * d);
  }

  lemma TickBound(tp: int, precision: nat, tick: int)
    requires 100_000 <= precision && 0 <= tp < 0x8000_0000_0000_0000 && tick == tp / precision
    ensures tick < MAX_TICK && tick < B(8)
  {
    FloorBounds(tp, precision);
    MulMono(100_000, precision, tick);
    BMono(6, 8);
    BValues();
  }
}

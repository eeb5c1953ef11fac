/// The channel's ring buffer. Both counters are 64 bits wide and only grow; a
/// slot is a counter modulo capacity + 1. When the write counter wraps to zero
/// both are rebased by capacity + 1, which keeps the elements in their slots
/// exactly when capacity + 1 divides 2^64.
module RingBuffers {
  import Base256
  import opened Options

  const WORD := 0x1_0000_0000_0000_0000

  /** The bounded queue the buffer stands for. */
  datatype Op<T> = Push(value: T) | Pop

  datatype Answer<T> = Pushed(accepted: bool) | Popped(value: Option<T>)

  function Step<T>(capacity: nat, q: seq<T>, op: Op<T>): (seq<T>, Answer<T>) {
    match op
    case Push(v) => if |q| == capacity then (q, Pushed(false)) else (q + [v], Pushed(true))
    case Pop => if q == [] then (q, Popped(None)) else (q[1..], Popped(Some(q[0])))
  }

  function Answers<T>(capacity: nat, q: seq<T>, ops: seq<Op<T>>): seq<Answer<T>>
    decreases ops
  {
    if ops == [] then []
    else
      var (next, answer) := Step(capacity, q, ops[0]);
      [answer] + Answers(capacity, next, ops[1..])
  }

  function Pushes<T>(ops: seq<Op<T>>): nat {
    if ops == [] then 0 else (if ops[0].Push? then 1 else 0) + Pushes(ops[1..])
  }

  /** The place in the buffer a counter names. */
  function Slot(x: nat, n: nat): (slot: nat)
    requires 0 < n
    ensures slot < n
  {
    x % n
  }

  /** The ring's length divides 2^64. */
  predicate Fitting(n: nat)
    requires 0 < n
  {
    WORD % n == 0
  }

  /** Counters a multiple of n apart name the same slot. */
  lemma SameSlot(x: nat, k: nat, n: nat)
    requires 0 < n
    ensures Slot(x + k * n, n) == Slot(x, n)
  {
    var q, r := x / n, x % n;
    assert x + k * n == (q + k) * n + r;
    SlotOf(x + k * n, q + k, r, n);
  }

  lemma SlotOf(x: nat, q: nat, r: nat, n: nat)
    requires r < n && x == q * n + r
    ensures Slot(x, n) == r && x / n == q
  {
    Base256.DivModUnique(x, n, q, r);
  }

  /** Counters less than n apart name different slots. */
  lemma DistinctSlots(x: nat, y: nat, n: nat)
    requires x < y < x + n
    ensures Slot(x, n) != Slot(y, n)
  {
    var a, b := x / n, y / n;
    assert x == a * n + x % n && y == b * n + y % n;
    if b <= a {
      Base256.MulMono(b, a, n);
    } else {
      Base256.MulStep(a, b, n);
    }
  }

  /** The rebase moves no element if n divides 2^64, and moves every element otherwise. */
  lemma RebaseExact(x: nat, n: nat)
    requires 0 < n < WORD && x < WORD <= x + n
    ensures Slot(x + n - WORD, n) == Slot(x, n) <==> Fitting(n)
  {
    var y := x + n - WORD;
    var q, r := WORD / n, WORD % n;
    assert x + n == y + r + q * n;
    SameSlot(y + r, q, n);
    SameSlot(x, 1, n);
    assert Slot(x, n) == Slot(y + r, n);
    if r != 0 {
      DistinctSlots(y, y + r, n);
    }
  }

  /** The elements sit in their slots, counted from `at`. */
  ghost predicate Holds<T>(buf: seq<T>, at: nat, contents: seq<T>) {
    |contents| < |buf| && forall k: nat :: k < |contents| ==> buf[Slot(at + k, |buf|)] == contents[k]
  }

  lemma HoldsPush<T>(buf: seq<T>, at: nat, contents: seq<T>, x: T)
    requires Holds(buf, at, contents) && |contents| + 1 < |buf|
    ensures Holds(buf[Slot(at + |contents|, |buf|) := x], at, contents + [x])
  {
    hide Slot;
    forall k: nat | k < |contents|
      ensures buf[Slot(at + |contents|, |buf|) := x][Slot(at + k, |buf|)] == contents[k]
    {
      DistinctSlots(at + k, at + |contents|, |buf|);
    }
  }

  lemma HoldsPop<T>(buf: seq<T>, at: nat, contents: seq<T>)
    requires Holds(buf, at, contents) && contents != []
    ensures buf[Slot(at, |buf|)] == contents[0] && Holds(buf, at + 1, contents[1..])
  {
    hide Slot;
    assert buf[Slot(at + 0, |buf|)] == contents[0];
    forall k: nat | k < |contents| - 1
      ensures buf[Slot(at + 1 + k, |buf|)] == contents[1..][k]
    {
      assert buf[Slot(at + (k + 1), |buf|)] == contents[k + 1];
    }
  }

  /** When capacity + 1 divides 2^64 the rebased counter finds every element. */
  lemma HoldsRebase<T>(buf: seq<T>, at: nat, contents: seq<T>)
    requires Holds(buf, at, contents) && |buf| < WORD && Fitting(|buf|)
    requires at + |contents| == WORD <= at + |buf|
    ensures Holds(buf, at + |buf| - WORD, contents)
  {
    hide Slot;
    forall k: nat | k < |contents|
      ensures buf[Slot(at + |buf| - WORD + k, |buf|)] == contents[k]
    {
      RebaseExact(at + k, |buf|);
    }
  }

  /** The ring itself: its slots and its two counters. */
  datatype Ring<T> = Ring(buf: seq<T>, write: nat, read: nat)

  /** What the counters keep, whatever the rebase did to the elements. */
  predicate Counts<T>(r: Ring<T>) {
    0 < |r.buf| < WORD && r.read <= r.write < WORD && r.write - r.read < |r.buf|
  }

  /** One call on the ring, with the wrap of the write counter. */
  function RingStep<T>(r: Ring<T>, op: Op<T>): (result: (Ring<T>, Answer<T>))
    requires Counts(r)
    ensures Counts(result.0) && |result.0.buf| == |r.buf|
  {
    var n := |r.buf|;
    match op
    case Push(x) =>
      if r.write - r.read == n - 1 then (r, Pushed(false))
      else
        var buf := r.buf[Slot(r.write, n) := x];
        if r.write + 1 < WORD then (Ring(buf, r.write + 1, r.read), Pushed(true))
        else (Ring(buf, n, r.read + n - WORD), Pushed(true))
    case Pop =>
      if r.write == r.read then (r, Popped(None))
      else (r.(read := r.read + 1), Popped(Some(r.buf[Slot(r.read, n)])))
  }

  /** What the ring answers to a run of calls. */
  function RingAnswers<T>(r: Ring<T>, ops: seq<Op<T>>): seq<Answer<T>>
    requires Counts(r)
    decreases ops
  {
    if ops == [] then []
    else
      var (next, answer) := RingStep(r, ops[0]);
      [answer] + RingAnswers(next, ops[1..])
  }

  class RingBuffer<T(0)> {
    const buf: array<T>
    const capacity: nat
    var write: nat
    var read: nat
    ghost var contents: seq<T>

    /** What the counters keep, whatever the rebase did to the elements. */
    ghost predicate Counted()
      reads this
    {
      && buf.Length == capacity + 1 < WORD
      && read <= write < WORD && write - read == |contents| <= capacity
    }

    ghost predicate Valid()
      reads this, buf
    {
      Counted() && Holds(buf[..], read, contents)
    }

    constructor (cap: nat)
      requires cap + 1 < WORD
      ensures Valid() && fresh(buf) && capacity == cap && contents == [] && write == 0
    {
      capacity := cap;
      buf := new T[cap + 1];
      write, read, contents := 0, 0, [];
    }

    ghost function View(): Ring<T>
      reads this, buf
    {
      Ring(buf[..], write, read)
    }

    /** The 64-bit difference of the counters is the number of elements. */
    function Size(): (n: nat)
      requires Counted()
      reads this
      ensures n == |contents|
    {
      (write + WORD - read) % WORD
    }

    /** Appends unless full. The queue is right as long as this push does not wrap the counter, or n divides 2^64. */
    method Push(x: T) returns (ok: bool)
      requires Counted()
      modifies this, buf
      ensures ok == (|old(contents)| < capacity) && contents == old(contents) + if ok then [x] else []
      ensures Counted() && (contents, Answer<T>.Pushed(ok)) == Step(capacity, old(contents), Op.Push(x))
      ensures (View(), Answer<T>.Pushed(ok)) == RingStep(old(View()), Op.Push(x))
      ensures ok ==> buf[..] == old(buf[..])[Slot(old(write), capacity + 1) := x]
      ensures !ok ==> buf[..] == old(buf[..]) && write == old(write) && read == old(read)
      ensures ok && old(write) + 1 < WORD ==> write == old(write) + 1 && read == old(read)
      ensures ok && old(write) + 1 == WORD ==> write == capacity + 1 && read == capacity + 1 - |contents|
      ensures old(Valid()) && (old(write) + 1 < WORD || Fitting(capacity + 1)) ==> Valid()
    {
      hide Slot, Holds, Fitting;
      var n := capacity + 1;
      ok := Size() != capacity;
      if ok {
        if Holds(buf[..], read, contents) {
          HoldsPush(buf[..], read, contents, x);
        }
        buf[Slot(write, n)] := x;
        contents := contents + [x];
        Advance();
      }
    }

    /** Counts an element written, with the rebase of both counters when the count wraps. */
    method Advance()
      requires buf.Length == capacity + 1 < WORD && read <= write < WORD
      requires write + 1 == read + |contents| && 0 < |contents| <= capacity
      modifies this`write, this`read
      ensures Counted() && write - read == |contents|
      ensures old(write) + 1 < WORD ==> write == old(write) + 1
      ensures old(write) + 1 == WORD ==> write == capacity + 1
      ensures Holds(buf[..], old(read), contents) && (old(write) + 1 < WORD || Fitting(capacity + 1)) ==> Valid()
    {
      hide Slot, Holds, Fitting;
      var n := capacity + 1;
      write := (write + 1) % WORD;
      if write == 0 {
        if Holds(buf[..], read, contents) && Fitting(n) {
          HoldsRebase(buf[..], read, contents);
        }
        write := n;
        read := (read + n) % WORD;
      }
    }

    method Pop() returns (r: Option<T>)
      requires Counted()
      modifies this
      ensures Counted() && write == old(write)
      ensures (View(), Popped(r)) == RingStep(old(View()), Op<T>.Pop)
      ensures old(contents) == [] ==> r == None && contents == [] && read == old(read)
      ensures old(contents) != [] ==>
        r == Some(buf[Slot(old(read), capacity + 1)]) && read == old(read) + 1 && contents == old(contents)[1..]
      ensures old(Valid()) && old(contents) != [] ==> r == Some(old(contents)[0])
      ensures old(Valid()) ==> Valid() && (contents, Popped(r)) == Step(capacity, old(contents), Op<T>.Pop)
    {
      hide Slot, Holds, Fitting;
      if Size() == 0 {
        return None;
      }
      if Holds(buf[..], read, contents) {
        HoldsPop(buf[..], read, contents);
      }
      r := Some(buf[Slot(read, capacity + 1)]);
      read := read + 1;
      contents := contents[1..];
    }
  }

  /**
   * The buffer answers every run of calls as the ring does. So it refines the bounded queue: on every
   * run of fewer than 2^64 pushes, and on every run at all when capacity + 1 divides 2^64.
   */
  method AnyRun<T(0)>(capacity: nat, ops: seq<Op<T>>) returns (answers: seq<Answer<T>>, ghost garbage: seq<T>)
    requires capacity + 1 < WORD
    ensures |garbage| == capacity + 1 && answers == RingAnswers(Ring(garbage, 0, 0), ops)
    ensures Pushes(ops) < WORD || Fitting(capacity + 1) ==> answers == Answers(capacity, [], ops)
  {
    hide Slot, Holds, Fitting, RingStep, Step;
    var ring := new RingBuffer<T>(capacity);
    answers, garbage := [], ring.buf[..];
    for i := 0 to |ops|
      invariant ring.Counted() && ring.capacity == capacity && fresh(ring) && fresh(ring.buf)
      invariant answers + RingAnswers(ring.View(), ops[i..]) == RingAnswers(Ring(garbage, 0, 0), ops)
    {
      ghost var before, rest, was := answers, ops[i..], ring.View();
      assert rest[0] == ops[i] && rest[1..] == ops[i + 1..];
      var answer := Perform(ring, ops[i]);
      answers := answers + [answer];
      assert before + RingAnswers(was, rest) == answers + RingAnswers(ring.View(), ops[i + 1..]);
    }
    if Pushes(ops) < WORD || Fitting(capacity + 1) {
      Refines(Ring(garbage, 0, 0), [], ops);
    }
  }

  method Perform<T(0)>(ring: RingBuffer<T>, op: Op<T>) returns (answer: Answer<T>)
    requires ring.Counted()
    modifies ring, ring.buf
    ensures ring.Counted() && (ring.View(), answer) == RingStep(old(ring.View()), op)
  {
    hide Slot, Holds, RingStep;
    match op {
      case Push(x) =>
        var ok := ring.Push(x);
        answer := Pushed(ok);
      case Pop =>
        var r := ring.Pop();
        answer := Popped(r);
    }
  }

  /** One call on a ring that holds the queue's elements, unless it wraps the counter and the elements do not fit. */
  lemma StepRefines<T>(r: Ring<T>, q: seq<T>, op: Op<T>)
    requires Counts(r) && |q| == r.write - r.read && Holds(r.buf, r.read, q)
    requires (op.Push? && |q| < |r.buf| - 1 ==> r.write + 1 < WORD) || Fitting(|r.buf|)
    ensures RingStep(r, op).1 == Step(|r.buf| - 1, q, op).1
    ensures var r', q' := RingStep(r, op).0, Step(|r.buf| - 1, q, op).0;
            |q'| == r'.write - r'.read && Holds(r'.buf, r'.read, q')
  {
    hide Slot, Holds, Fitting;
    match op
    case Push(x) =>
      if |q| < |r.buf| - 1 {
        HoldsPush(r.buf, r.read, q, x);
        if r.write + 1 == WORD {
          HoldsRebase(r.buf[Slot(r.write, |r.buf|) := x], r.read, q + [x]);
        }
      }
    case Pop =>
      if q != [] {
        HoldsPop(r.buf, r.read, q);
      }
  }

  /** On such a run the ring answers as the queue. */
  lemma {:induction false} Refines<T>(r: Ring<T>, q: seq<T>, ops: seq<Op<T>>)
    requires Counts(r) && |q| == r.write - r.read && Holds(r.buf, r.read, q)
    requires r.write + Pushes(ops) < WORD || Fitting(|r.buf|)
    ensures RingAnswers(r, ops) == Answers(|r.buf| - 1, q, ops)
    decreases ops
  {
    hide Slot, Holds, Fitting;
    if ops != [] {
      StepRefines(r, q, ops[0]);
      Refines(RingStep(r, ops[0]).0, Step(|r.buf| - 1, q, ops[0]).0, ops[1..]);
    }
  }

  // ------------------------------------------------------------ the bound is sharp

  /** Around the wrap: the slot just written, and the slot the rebased counter names. */
  lemma WrapSlots(word: nat, n: nat, q: nat, r: nat)
    requires 0 < r < n < word && word == q * n + r
    ensures Slot(word - 1, n) != n - 1 && Slot(n - 1, n) == n - 1 == Slot(word - 1 - r, n)
  {
    SlotOf(word - 1, q, r - 1, n);
    Base256.Distribute(q, -1, n);
    SlotOf(word - 1 - r, q - 1, n - 1, n);
    SlotOf(n - 1, 0, n - 1, n);
  }

  /** Pushes the numbers from i on, each popped before the next, m of them. */
  function Alternating(i: nat, m: nat): (ops: seq<Op<nat>>)
    ensures |ops| == 2 * m && Pushes(ops) == m
    decreases m
  {
    if m == 0 then [] else
      var rest := Alternating(i + 1, m - 1);
      assert ([Op.Push(i), Op.Pop] + rest)[1..][1..] == rest;
      [Op.Push(i), Op.Pop] + rest
  }

  /** Empty, after the numbers below i: the youngest of them are still in their slots. */
  ghost predicate Drained(r: Ring<nat>, i: nat) {
    Counts(r) && r.write == i == r.read && forall j: nat {:trigger Slot(j, |r.buf|)} ::
      j < i < j + |r.buf| ==> r.buf[Slot(j, |r.buf|)] == j
  }

  /** Two calls of the run, on an empty ring. */
  function Lap(r: Ring<nat>, i: nat): Ring<nat>
    requires Counts(r)
  {
    var at := if r.write + 1 < WORD then r.write + 1 else |r.buf|;
    Ring(r.buf[Slot(r.write, |r.buf|) := i], at, at)
  }

  lemma LapAnswers(r: Ring<nat>, i: nat, ops: seq<Op<nat>>)
    requires Counts(r) && r.write == r.read && 1 < |r.buf|
    requires |ops| >= 2 && ops[0] == Op.Push(i) && ops[1] == Op<nat>.Pop
    ensures Counts(Lap(r, i))
    ensures var from := if r.write + 1 < WORD then r.write else |r.buf| - 1;
            var popped := Popped(Some(Lap(r, i).buf[Slot(from, |r.buf|)]));
            RingAnswers(r, ops) == [Pushed(true), popped] + RingAnswers(Lap(r, i), ops[2..])
  {
    hide Slot;
    assert ops[1..][1..] == ops[2..] && ops[1..][0] == Op<nat>.Pop;
    var pushed := RingStep(r, ops[0]).0;
    var second := RingStep(pushed, ops[1]);
    assert RingAnswers(pushed, ops[1..]) == [second.1] + RingAnswers(second.0, ops[1..][1..]);
  }

  lemma StillDrained(r: Ring<nat>, i: nat)
    requires Drained(r, i) && 1 < |r.buf| && i + 1 < WORD
    ensures Drained(Lap(r, i), i + 1)
  {
    hide Slot;
    forall j: nat | j < i < j + |r.buf|
      ensures Slot(j, |r.buf|) != Slot(i, |r.buf|)
    {
      DistinctSlots(j, i, |r.buf|);
    }
  }

  lemma {:induction false} LastAnswer(r: Ring<nat>, i: nat, m: nat)
    requires Drained(r, i) && 1 < |r.buf| && 0 < m && i + m == WORD && !Fitting(|r.buf|)
    ensures |RingAnswers(r, Alternating(i, m))| == 2 * m
    ensures RingAnswers(r, Alternating(i, m))[2 * m - 1] == Popped(Some(WORD - 1 - WORD % |r.buf|))
    decreases m
  {
    hide Slot, RingStep;
    var ops, n := Alternating(i, m), |r.buf|;
    assert ops[2..] == Alternating(i + 1, m - 1);
    LapAnswers(r, i, ops);
    if m > 1 {
      StillDrained(r, i);
      LastAnswer(Lap(r, i), i + 1, m - 1);
    } else {
      WrapSlots(WORD, n, WORD / n, WORD % n);
      assert r.buf[Slot(WORD - 1 - WORD % n, n)] == WORD - 1 - WORD % n;
    }
  }

  lemma {:induction false} QueueAnswer(capacity: nat, i: nat, m: nat)
    requires 0 < capacity && 0 < m
    ensures |Answers(capacity, [], Alternating(i, m))| == 2 * m
    ensures Answers(capacity, [], Alternating(i, m))[2 * m - 1] == Popped(Some(i + m - 1))
    decreases m
  {
    var ops := Alternating(i, m);
    assert ops[1..][1..] == Alternating(i + 1, m - 1);
    assert Step(capacity, [], ops[0]) == ([] + [i], Pushed(true)) && [] + [i] == [i];
    assert Step(capacity, [i], ops[1]) == ([i][1..], Popped(Some(i))) && [i][1..] == [];
    assert Answers(capacity, [], ops)
        == [Pushed(true), Popped(Some(i))] + Answers(capacity, [], ops[1..][1..]);
    if m > 1 {
      QueueAnswer(capacity, i + 1, m - 1);
    }
  }

  /**
   * Without the division the bound on the pushes is sharp: whatever is in the slots at first, the ring
   * answers a run of 2^64 pushes otherwise than the queue does. The last of them is popped at once, and
   * an older value comes out.
   */
  lemma RebaseBreaks(garbage: seq<nat>) returns (ops: seq<Op<nat>>)
    requires 1 < |garbage| < WORD && !Fitting(|garbage|)
    ensures Pushes(ops) == WORD && |RingAnswers(Ring(garbage, 0, 0), ops)| == |ops| > 0
    ensures RingAnswers(Ring(garbage, 0, 0), ops)[|ops| - 1] == Popped(Some(WORD - 1 - WORD % |garbage|))
    ensures |Answers(|garbage| - 1, [], ops)| == |ops|
    ensures Answers(|garbage| - 1, [], ops)[|ops| - 1] == Popped(Some(WORD - 1))
    ensures RingAnswers(Ring(garbage, 0, 0), ops) != Answers(|garbage| - 1, [], ops)
  {
    hide Slot, RingStep, Alternating, RingAnswers, Answers, Pushes;
    ops := Alternating(0, WORD);
    LastAnswer(Ring(garbage, 0, 0), 0, WORD);
    QueueAnswer(|garbage| - 1, 0, WORD);
    assert WORD % |garbage| > 0;
  }
}

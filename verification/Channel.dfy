/// The locked channel: a bounded buffer with a queue of blocked writers and a
/// queue of blocked readers. Each call is one step under the channel's lock.
/// A blocked call stays in its queue until another call wakes it.
module Channels {
  type Caller = nat

  datatype Write<T> = Write(caller: Caller, value: T)

  datatype Delivery<T> = Delivery(reader: Caller, value: T)

  /** What a call does under the lock: returns at once, or is left in the queue. */
  datatype Outcome<T> = Returns(ok: bool) | Receives(value: T) | Blocks

  datatype Call<T> =
    | Push(caller: Caller, value: T, wait: bool)
    | Pop(caller: Caller, wait: bool)
    | Close

  // ------------------------------------------------------------ the simple channel

  /**
   * The channel as callers see it: the writes taken on and the reads taken on, each in the order in
   * which they held the lock. The k-th read gets the k-th write.
   */
  datatype Logs<T> = Logs(accepted: seq<Write<T>>, asked: seq<Caller>, closed: bool)

  function Answer<T>(capacity: nat, logs: Logs<T>, call: Call<T>): Outcome<T> {
    match call
      case Close => Returns(true)
      case Push(_, _, wait) =>
        if logs.closed then Returns(false)
        else if |logs.accepted| < |logs.asked| + capacity then Returns(true)
        else if wait then Blocks else Returns(false)
      case Pop(_, wait) =>
        if logs.closed then Returns(false)
        else if |logs.asked| < |logs.accepted| then Receives(logs.accepted[|logs.asked|].value)
        else if wait then Blocks else Returns(false)
  }

  function After<T>(capacity: nat, logs: Logs<T>, call: Call<T>): Logs<T> {
    if Answer(capacity, logs, call) == Returns(false) then logs
    else match call
      case Push(caller, value, _) => logs.(accepted := logs.accepted + [Write(caller, value)])
      case Pop(caller, _) => logs.(asked := logs.asked + [caller])
      case Close => logs.(closed := true)
  }

  function Outcomes<T>(capacity: nat, logs: Logs<T>, calls: seq<Call<T>>): seq<Outcome<T>>
    decreases calls
  {
    if calls == [] then []
    else [Answer(capacity, logs, calls[0])] + Outcomes(capacity, After(capacity, logs, calls[0]), calls[1..])
  }

  function FinalLogs<T>(capacity: nat, logs: Logs<T>, calls: seq<Call<T>>): Logs<T>
    decreases calls
  {
    if calls == [] then logs else FinalLogs(capacity, After(capacity, logs, calls[0]), calls[1..])
  }

  // ------------------------------------------------------------ the state behind it

  datatype State<T> = State(
    capacity: nat, closed: bool, buffer: seq<T>, writers: seq<Write<T>>, readers: seq<Caller>,
    accepted: seq<Write<T>>, asked: seq<Caller>, delivered: seq<Delivery<T>>)

  function Values<T>(writes: seq<Write<T>>): (values: seq<T>)
    ensures |values| == |writes|
  {
    seq(|writes|, i requires 0 <= i < |writes| => writes[i].value)
  }

  /** The k-th delivery is the k-th write, given to the k-th read. */
  ghost predicate Matches<T>(s: State<T>) {
    && |s.delivered| <= |s.asked| && |s.delivered| <= |s.accepted|
    && forall k: nat :: k < |s.delivered| ==> s.delivered[k] == Delivery(s.asked[k], s.accepted[k].value)
  }

  /** The buffer holds the next accepted values, in order. */
  ghost predicate Buffered<T>(s: State<T>) {
    && |s.buffer| <= s.capacity
    && |s.delivered| + |s.buffer| <= |s.accepted|
    && forall k: nat :: k < |s.buffer| ==> s.buffer[k] == s.accepted[|s.delivered| + k].value
  }

  /** Before the channel is closed, nothing accepted is lost and no call waits in vain. */
  ghost predicate Open<T>(s: State<T>) {
    && |s.delivered| + |s.buffer| + |s.writers| == |s.accepted|
    && (forall k: nat :: k < |s.writers| ==> s.writers[k] == s.accepted[|s.delivered| + |s.buffer| + k])
    && |s.delivered| + |s.readers| == |s.asked|
    && (forall k: nat :: k < |s.readers| ==> s.readers[k] == s.asked[|s.delivered| + k])
    && (s.readers != [] ==> s.buffer == [] && s.writers == [])
    && (s.writers != [] ==> |s.buffer| == s.capacity)
  }

  ghost predicate Sound<T>(s: State<T>) {
    && Matches(s) && Buffered(s)
    && if s.closed then s.readers == [] && s.writers == [] else Open(s)
  }

  function LogsOf<T>(s: State<T>): Logs<T> {
    Logs(s.accepted, s.asked, s.closed)
  }

  /** While the channel is open every possible pair is delivered, and no call is stranded in a queue. */
  lemma NothingStranded<T>(s: State<T>)
    requires Sound(s) && !s.closed
    ensures |s.delivered| == if |s.asked| < |s.accepted| then |s.asked| else |s.accepted|
    ensures |s.buffer| + |s.writers| - |s.readers| == |s.accepted| - |s.asked|
    ensures s.readers != [] ==> s.buffer == [] && s.writers == []
    ensures s.writers != [] ==> |s.buffer| == s.capacity
    ensures |s.buffer| <= s.capacity
    ensures s.buffer != [] ==> s.buffer[0] == s.accepted[|s.asked|].value
    ensures s.buffer == [] && s.writers != [] ==> s.writers[0] == s.accepted[|s.asked|]
  {
  }

  /**
   * The two edges are enough: a write into the buffer that finds a blocked reader makes the size 1,
   * and a read from it that finds a blocked writer makes the size capacity - 1.
   */
  lemma EdgesSuffice<T>(s: State<T>)
    requires Sound(s) && !s.closed
    ensures |s.buffer| < s.capacity && s.readers != [] ==> |s.buffer| + 1 == 1
    ensures s.buffer != [] && s.writers != [] ==> |s.buffer| - 1 == s.capacity - 1
  {
    NothingStranded(s);
  }

  /** The open channel is canonical: the two logs determine the buffer, both queues and the deliveries. */
  lemma Determined<T>(s: State<T>, t: State<T>)
    requires Sound(s) && Sound(t) && !s.closed && s.capacity == t.capacity && LogsOf(s) == LogsOf(t)
    ensures s == t
  {
    NothingStranded(s);
    NothingStranded(t);
    assert s.delivered == t.delivered;
    assert s.buffer == t.buffer && s.writers == t.writers && s.readers == t.readers;
  }

  /** First in, first out: the values received, the buffer and the blocked writers' values are the accepted ones. */
  lemma Fifo<T>(s: State<T>)
    requires Sound(s)
    ensures var received := seq(|s.delivered|, k requires 0 <= k < |s.delivered| => s.delivered[k].value);
            && received + s.buffer <= Values(s.accepted)
            && (!s.closed ==> received + s.buffer + Values(s.writers) == Values(s.accepted))
  {
    var received := seq(|s.delivered|, k requires 0 <= k < |s.delivered| => s.delivered[k].value);
    var held := |s.delivered| + |s.buffer|;
    assert received + s.buffer == Values(s.accepted)[..held];
    if !s.closed {
      assert Values(s.writers) == Values(s.accepted)[held..];
    }
  }

  // ------------------------------------------------------------ what one step keeps

  /** A write given to the first blocked reader. */
  lemma HandOver<T>(s: State<T>, w: Write<T>)
    requires Sound(s) && !s.closed && s.readers != []
    ensures Sound(s.(accepted := s.accepted + [w], readers := s.readers[1..],
                     delivered := s.delivered + [Delivery(s.readers[0], w.value)]))
  {
  }

  lemma Enqueue<T>(s: State<T>, w: Write<T>)
    requires Sound(s) && !s.closed && s.readers == [] && |s.buffer| < s.capacity
    ensures Sound(s.(accepted := s.accepted + [w], buffer := s.buffer + [w.value]))
  {
  }

  lemma BlockWriter<T>(s: State<T>, w: Write<T>)
    requires Sound(s) && !s.closed && s.readers == [] && |s.buffer| == s.capacity
    ensures Sound(s.(accepted := s.accepted + [w], writers := s.writers + [w]))
  {
  }

  lemma BlockReader<T>(s: State<T>, caller: Caller)
    requires Sound(s) && !s.closed && s.buffer == [] && s.writers == []
    ensures Sound(s.(asked := s.asked + [caller], readers := s.readers + [caller]))
  {
  }

  lemma TakeBuffered<T>(s: State<T>, caller: Caller)
    requires Sound(s) && !s.closed && s.buffer != []
    ensures var taken := s.(asked := s.asked + [caller], buffer := s.buffer[1..],
                            delivered := s.delivered + [Delivery(caller, s.buffer[0])]);
            Sound(if s.writers == [] then taken
                  else taken.(buffer := taken.buffer + [s.writers[0].value], writers := s.writers[1..]))
  {
  }

  lemma TakeFromWriter<T>(s: State<T>, caller: Caller)
    requires Sound(s) && !s.closed && s.buffer == [] && s.writers != []
    ensures Sound(s.(asked := s.asked + [caller], writers := s.writers[1..],
                     delivered := s.delivered + [Delivery(caller, s.writers[0].value)]))
  {
  }

  class Channel<T> {
    const capacity: nat
    var closed: bool
    var buffer: seq<T>
    var writers: seq<Write<T>>
    var readers: seq<Caller>
    ghost var accepted: seq<Write<T>>
    ghost var asked: seq<Caller>
    ghost var delivered: seq<Delivery<T>>

    ghost function View(): State<T>
      reads this
    {
      State(capacity, closed, buffer, writers, readers, accepted, asked, delivered)
    }

    constructor (capacity: nat)
      ensures Sound(View()) && this.capacity == capacity && LogsOf(View()) == Logs([], [], false)
    {
      this.capacity := capacity;
      closed, buffer, writers, readers := false, [], [], [];
      accepted, asked, delivered := [], [], [];
    }

    /** Wakes the first blocked reader, if any, with the value the caller hands it. */
    method NotifyReader(value: T) returns (ok: bool)
      modifies this`readers, this`delivered
      ensures ok == (old(readers) != [])
      ensures !ok ==> readers == old(readers) && delivered == old(delivered)
      ensures ok ==> readers == old(readers)[1..] && delivered == old(delivered) + [Delivery(old(readers)[0], value)]
    {
      ok := readers != [];
      if ok {
        delivered := delivered + [Delivery(readers[0], value)];
        readers := readers[1..];
      }
    }

    method Push(caller: Caller, value: T, wait: bool) returns (r: Outcome<T>)
      requires Sound(View())
      modifies this
      ensures Sound(View())
      // In terms of the channel itself: a blocked reader gets the value, else the buffer, if it has room.
      ensures r == if old(closed) then Returns(false)
                   else if old(readers) != [] || |old(buffer)| < capacity then Returns(true)
                   else if wait then Blocks else Returns(false)
      ensures delivered == if old(!closed && readers != []) then old(delivered) + [Delivery(old(readers)[0], value)]
                           else old(delivered)
      ensures accepted == if r == Returns(false) then old(accepted) else old(accepted) + [Write(caller, value)]
      ensures asked == old(asked)
      // In terms of the logs.
      ensures r == Answer(capacity, old(LogsOf(View())), Call.Push(caller, value, wait))
      ensures LogsOf(View()) == After(capacity, old(LogsOf(View())), Call.Push(caller, value, wait))
    {
      hide Matches, Buffered, Open;
      if closed {
        return Returns(false);
      }
      ghost var s, w := View(), Write(caller, value);
      NothingStranded(s);
      if capacity == 0 {
        var handed := NotifyReader(value);
        if handed {
          HandOver(s, w);
          accepted := accepted + [w];
          return Returns(true);
        }
      }
      if capacity > 0 && |buffer| < capacity {
        accepted := accepted + [w];
        buffer := buffer + [value];
        if |buffer| == 1 {
          var handed := NotifyReader(buffer[0]);
          if handed {
            HandOver(s, w);
            buffer := buffer[1..];
            assert buffer == s.buffer;
            return Returns(true);
          }
        }
        Enqueue(s, w);
        return Returns(true);
      }
      if !wait {
        return Returns(false);
      }
      BlockWriter(s, w);
      accepted := accepted + [w];
      writers := writers + [Write(caller, value)];
      return Blocks;
    }

    method Pop(caller: Caller, wait: bool) returns (r: Outcome<T>)
      requires Sound(View())
      modifies this
      ensures Sound(View())
      // In terms of the channel itself: the oldest value in the buffer, else that of the first blocked writer.
      ensures r == if old(closed) then Returns(false)
                   else if old(buffer) != [] then Receives(old(buffer)[0])
                   else if old(writers) != [] then Receives(old(writers)[0].value)
                   else if wait then Blocks else Returns(false)
      ensures delivered == if r.Receives? then old(delivered) + [Delivery(caller, r.value)] else old(delivered)
      ensures r.Receives? ==> |old(delivered)| == |old(asked)|
      ensures asked == if r == Returns(false) then old(asked) else old(asked) + [caller]
      ensures accepted == old(accepted)
      // In terms of the logs.
      ensures r == Answer(capacity, old(LogsOf(View())), Call.Pop(caller, wait))
      ensures LogsOf(View()) == After(capacity, old(LogsOf(View())), Call.Pop(caller, wait))
    {
      hide Matches, Buffered, Open;
      if closed {
        return Returns(false);
      }
      ghost var s := View();
      NothingStranded(s);
      if capacity > 0 {
        if buffer != [] {
          TakeBuffered(s, caller);
          r := Receives(buffer[0]);
          buffer := buffer[1..];
          asked, delivered := asked + [caller], delivered + [Delivery(caller, r.value)];
          if |buffer| == capacity - 1 && writers != [] {
            buffer, writers := buffer + [writers[0].value], writers[1..];
          }
          return;
        }
      } else if writers != [] {
        TakeFromWriter(s, caller);
        r := Receives(writers[0].value);
        asked, delivered := asked + [caller], delivered + [Delivery(caller, r.value)];
        writers := writers[1..];
        return;
      }
      if !wait {
        return Returns(false);
      }
      BlockReader(s, caller);
      asked, readers := asked + [caller], readers + [caller];
      return Blocks;
    }

    method Close()
      requires Sound(View())
      modifies this
      ensures Sound(View()) && closed && delivered == old(delivered)
      ensures readers == [] && writers == [] && (old(closed) || buffer == old(buffer))
      ensures accepted == old(accepted) && asked == old(asked)
      ensures LogsOf(View()) == After(capacity, old(LogsOf(View())), Call.Close)
    {
      if closed {
        return;
      }
      closed := true;
      readers, writers := [], [];
    }
  }

  /** One call on a channel. */
  method Perform<T>(channel: Channel<T>, call: Call<T>) returns (r: Outcome<T>)
    requires Sound(channel.View())
    modifies channel
    ensures Sound(channel.View())
    ensures r == Answer(channel.capacity, old(LogsOf(channel.View())), call)
    ensures LogsOf(channel.View()) == After(channel.capacity, old(LogsOf(channel.View())), call)
    ensures call.Close? ==> channel.delivered == old(channel.delivered)
    ensures channel.accepted == old(channel.accepted) + WriteOf(call, r)
    ensures channel.asked == old(channel.asked) + ReadOf(call, r)
    ensures old(channel.delivered) <= channel.delivered
    ensures r.Receives? ==>
      && call.Pop? && |old(channel.asked)| < |channel.delivered|
      && channel.delivered[|old(channel.asked)|].value == r.value
  {
    match call
    case Push(caller, value, wait) => r := channel.Push(caller, value, wait);
    case Pop(caller, wait) => r := channel.Pop(caller, wait);
    case Close =>
      channel.Close();
      r := Returns(true);
  }

  // ------------------------------------------------------------ what callers see of a run

  /** The write that a call leaves with the channel, if any. */
  function WriteOf<T>(call: Call<T>, r: Outcome<T>): seq<Write<T>> {
    if call.Push? && r != Returns(false) then [Write(call.caller, call.value)] else []
  }

  /** The read that it leaves. */
  function ReadOf<T>(call: Call<T>, r: Outcome<T>): seq<Caller> {
    if call.Pop? && r != Returns(false) then [call.caller] else []
  }

  /** The values pushed by the calls that were not refused, in order. */
  function Pushed<T>(calls: seq<Call<T>>, outcomes: seq<Outcome<T>>): seq<Write<T>>
    requires |calls| == |outcomes|
  {
    if calls == [] then []
    else
      var n := |calls| - 1;
      Pushed(calls[..n], outcomes[..n]) + WriteOf(calls[n], outcomes[n])
  }

  /** The readers that were not refused, in order, */
  function Readers<T>(calls: seq<Call<T>>, outcomes: seq<Outcome<T>>): seq<Caller>
    requires |calls| == |outcomes|
  {
    if calls == [] then []
    else
      var n := |calls| - 1;
      Readers(calls[..n], outcomes[..n]) + ReadOf(calls[n], outcomes[n])
  }

  /** and what each call of them returned. */
  function Received<T>(calls: seq<Call<T>>, outcomes: seq<Outcome<T>>): (r: seq<Outcome<T>>)
    requires |calls| == |outcomes|
    ensures |r| == |Readers(calls, outcomes)|
  {
    if calls == [] then []
    else
      var n := |calls| - 1;
      Received(calls[..n], outcomes[..n])
      + if calls[n].Pop? && outcomes[n] != Returns(false) then [outcomes[n]] else []
  }

  /** The k-th read that returned with a value is the k-th delivery. */
  ghost predicate AsDelivered<T>(received: seq<Outcome<T>>, delivered: seq<Delivery<T>>) {
    forall k: nat :: k < |received| && received[k].Receives? ==>
      k < |delivered| && delivered[k].value == received[k].value
  }

  lemma OneMoreCall<T>(calls: seq<Call<T>>, outcomes: seq<Outcome<T>>, i: nat, r: Outcome<T>)
    requires |outcomes| == i < |calls|
    ensures Pushed(calls[..i + 1], outcomes + [r]) == Pushed(calls[..i], outcomes) + WriteOf(calls[i], r)
    ensures Readers(calls[..i + 1], outcomes + [r]) == Readers(calls[..i], outcomes) + ReadOf(calls[i], r)
    ensures Received(calls[..i + 1], outcomes + [r])
         == if calls[i].Pop? && r != Returns(false) then Received(calls[..i], outcomes) + [r]
            else Received(calls[..i], outcomes)
  {
    assert calls[..i + 1][..i] == calls[..i] && (outcomes + [r])[..i] == outcomes;
  }

  lemma MoreDelivered<T>(received: seq<Outcome<T>>, r: Outcome<T>, before: seq<Delivery<T>>, after: seq<Delivery<T>>)
    requires AsDelivered(received, before) && before <= after
    requires r.Receives? ==> |received| < |after| && after[|received|].value == r.value
    ensures AsDelivered(received, after) && AsDelivered(received + [r], after)
  {
  }

  /**
   * Every run of calls, in any order: the k-th read gets the k-th write, both counted among the calls
   * that were not refused, whether it returns with the value or is blocked first; and while the channel
   * is open as many are delivered as there are pairs. All calls are answered as the two logs say.
   */
  method AnyRun<T>(capacity: nat, calls: seq<Call<T>>) returns (outcomes: seq<Outcome<T>>, channel: Channel<T>)
    ensures |outcomes| == |calls| && fresh(channel) && channel.capacity == capacity && Sound(channel.View())
    ensures var received, pushed := Received(calls, outcomes), Pushed(calls, outcomes);
            forall k: nat :: k < |received| && received[k].Receives? ==>
              k < |pushed| && received[k].value == pushed[k].value
    ensures var readers, pushed := Readers(calls, outcomes), Pushed(calls, outcomes);
            && |channel.delivered| <= |readers| && |channel.delivered| <= |pushed|
            && (!channel.closed ==> |channel.delivered| == |readers| || |channel.delivered| == |pushed|)
            && forall k: nat :: k < |channel.delivered| ==>
                 channel.delivered[k] == Delivery(readers[k], pushed[k].value)
    ensures outcomes == Outcomes(capacity, Logs([], [], false), calls)
    ensures LogsOf(channel.View()) == FinalLogs(capacity, Logs([], [], false), calls)
  {
    hide Sound, Pushed, Readers, Received, AsDelivered, Outcomes, FinalLogs, Answer, After, WriteOf, ReadOf;
    ghost var start: Logs<T> := Logs([], [], false);
    channel := new Channel<T>(capacity);
    outcomes := [];
    NoCalls(channel.delivered);
    assert calls[0..] == calls && calls[..0] == [];
    for i := 0 to |calls|
      invariant fresh(channel) && channel.capacity == capacity && Sound(channel.View()) && |outcomes| == i
      invariant channel.accepted == Pushed(calls[..i], outcomes) && channel.asked == Readers(calls[..i], outcomes)
      invariant AsDelivered(Received(calls[..i], outcomes), channel.delivered)
      invariant FinalLogs(capacity, LogsOf(channel.View()), calls[i..]) == FinalLogs(capacity, start, calls)
      invariant outcomes + Outcomes(capacity, LogsOf(channel.View()), calls[i..]) == Outcomes(capacity, start, calls)
    {
      assert calls[i..][0] == calls[i] && calls[i..][1..] == calls[i + 1..];
      ghost var before, logs, delivered := outcomes, LogsOf(channel.View()), channel.delivered;
      var r := Perform(channel, calls[i]);
      OneMoreCall(calls, outcomes, i, r);
      OneMoreAnswer(capacity, logs, calls[i..]);
      MoreDelivered(Received(calls[..i], outcomes), r, delivered, channel.delivered);
      outcomes := outcomes + [r];
      assert before + ([r] + Outcomes(capacity, LogsOf(channel.View()), calls[i + 1..]))
          == outcomes + Outcomes(capacity, LogsOf(channel.View()), calls[i + 1..]);
    }
    assert calls[..|calls|] == calls && calls[|calls|..] == [];
    NoAnswers(capacity, LogsOf(channel.View()));
    AllMatched(channel.View());
    ReceivedPushed(Received(calls, outcomes), channel.View());
  }

  lemma NoCalls<T>(delivered: seq<Delivery<T>>)
    ensures Pushed<T>([], []) == [] && Readers<T>([], []) == [] && AsDelivered(Received<T>([], []), delivered)
  {
  }

  lemma NoAnswers<T>(capacity: nat, logs: Logs<T>)
    ensures Outcomes(capacity, logs, []) == [] && FinalLogs(capacity, logs, []) == logs
  {
  }

  lemma OneMoreAnswer<T>(capacity: nat, logs: Logs<T>, calls: seq<Call<T>>)
    requires calls != []
    ensures Outcomes(capacity, logs, calls)
         == [Answer(capacity, logs, calls[0])] + Outcomes(capacity, After(capacity, logs, calls[0]), calls[1..])
    ensures FinalLogs(capacity, logs, calls) == FinalLogs(capacity, After(capacity, logs, calls[0]), calls[1..])
  {
  }

  lemma ReceivedPushed<T>(received: seq<Outcome<T>>, s: State<T>)
    requires Sound(s) && AsDelivered(received, s.delivered)
    ensures forall k: nat :: k < |received| && received[k].Receives? ==>
              k < |s.accepted| && received[k].value == s.accepted[k].value
  {
    AllMatched(s);
  }

  lemma AllMatched<T>(s: State<T>)
    requires Sound(s)
    ensures |s.delivered| <= |s.asked| && |s.delivered| <= |s.accepted|
    ensures !s.closed ==> |s.delivered| == |s.asked| || |s.delivered| == |s.accepted|
    ensures forall k: nat :: k < |s.delivered| ==> s.delivered[k] == Delivery(s.asked[k], s.accepted[k].value)
  {
  }
}

/// Shared objects and weak pointers. Any number of holders copy, drop and upgrade
/// their pointers; every access to one of the two counters is one step.
module WeakRef {

  /** What one holder has, or is in the middle of. */
  datatype Token =
    | Strong
    | Weak
    | Upgrading(count: nat)
    | Locked
    | Doubled
    | Deleting
    | Releasing

  /** `objectDeletes` and `blockDeletes` count the runs of the deleter and the deletes of the control block. */
  datatype State = State(ref: nat, weak: nat, tokens: seq<Token>, objectDeletes: nat, blockDeletes: nat)

  datatype Step =
    | CopyStrong(i: nat)
    | MakeWeak(i: nat)
    | DropStrong(i: nat)
    | CopyWeak(i: nat)
    | DropWeak(i: nat)
    | BeginUpgrade(i: nat)
    | TryUpgrade(i: nat, spurious: bool)
    | TakePointer(i: nat)
    | ReturnExtra(i: nat)
    | RunDeleter(i: nat)
    | ReleaseBlock(i: nat)

  /** A new object: one strong pointer, and the weak count the object holds itself. */
  const START := State(1, 1, [Strong], 0, 0)

  function Put(tokens: seq<Token>, i: nat, now: seq<Token>): seq<Token>
    requires i < |tokens|
  {
    tokens[..i] + now + tokens[i + 1..]
  }

  predicate Enabled(s: State, step: Step) {
    && step.i < |s.tokens|
    && match step {
         case CopyStrong(i) => s.tokens[i] == Strong
         case MakeWeak(i) => s.tokens[i] == Strong
         case DropStrong(i) => s.tokens[i] == Strong
         case CopyWeak(i) => s.tokens[i] == Weak
         case DropWeak(i) => s.tokens[i] == Weak
         case BeginUpgrade(i) => s.tokens[i] == Weak
         case TryUpgrade(i, _) => s.tokens[i].Upgrading?
         case TakePointer(i) => s.tokens[i] == Locked
         case ReturnExtra(i) => s.tokens[i] == Doubled
         case RunDeleter(i) => s.tokens[i] == Deleting
         case ReleaseBlock(i) => s.tokens[i] == Releasing
       }
  }

  /** The strong counter goes down; whoever takes it to zero has to run the deleter. */
  function DecrementRef(s: State, i: nat, kept: seq<Token>): State
    requires i < |s.tokens|
  {
    var left := if s.ref > 0 then s.ref - 1 else 0;
    s.(ref := left, tokens := Put(s.tokens, i, if left == 0 then [Deleting] + kept else kept))
  }

  /** The weak counter goes down; whoever takes it to zero deletes the control block. */
  function DecrementWeak(s: State, i: nat): State
    requires i < |s.tokens|
  {
    var left := if s.weak > 0 then s.weak - 1 else 0;
    s.(weak := left, tokens := Put(s.tokens, i, []),
       blockDeletes := if left == 0 then s.blockDeletes + 1 else s.blockDeletes)
  }

  function Next(s: State, step: Step): State
    requires Enabled(s, step)
  {
    match step
    case CopyStrong(i) => s.(ref := s.ref + 1, tokens := Put(s.tokens, i, [Strong, Strong]))
    case MakeWeak(i) => s.(weak := s.weak + 1, tokens := Put(s.tokens, i, [Strong, Weak]))
    case DropStrong(i) => DecrementRef(s, i, [])
    case CopyWeak(i) => s.(weak := s.weak + 1, tokens := Put(s.tokens, i, [Weak, Weak]))
    case DropWeak(i) => DecrementWeak(s, i)
    case BeginUpgrade(i) => s.(tokens := Put(s.tokens, i, [Upgrading(s.ref)]))
    case TryUpgrade(i, spurious) =>
      var count := s.tokens[i].count;
      if count == 0 then s.(tokens := Put(s.tokens, i, [Weak]))
      else if s.ref == count && !spurious then s.(ref := s.ref + 1, tokens := Put(s.tokens, i, [Locked]))
      else s.(tokens := Put(s.tokens, i, [Upgrading(s.ref)]))
    case TakePointer(i) => s.(ref := s.ref + 1, tokens := Put(s.tokens, i, [Doubled]))
    case ReturnExtra(i) => DecrementRef(s, i, [Strong, Weak])
    case RunDeleter(i) =>
      s.(objectDeletes := s.objectDeletes + 1, tokens := Put(s.tokens, i, [Releasing]))
    case ReleaseBlock(i) => DecrementWeak(s, i)
  }

  // ------------------------------------------------------------ the invariant

  datatype Kind = Refs | Weaks | Deleters

  function Weight(token: Token, kind: Kind): nat {
    match kind
    case Refs => if token == Strong || token == Locked then 1 else if token == Doubled then 2 else 0
    case Weaks => if token == Strong then 0 else 1
    case Deleters => if token == Deleting then 1 else 0
  }

  function Total(tokens: seq<Token>, kind: Kind): nat {
    if tokens == [] then 0 else Weight(tokens[0], kind) + Total(tokens[1..], kind)
  }

  /** Both counters count what the holders have; the object is deleted once, and the block once, in this order. */
  ghost predicate Sound(s: State) {
    && s.ref == Total(s.tokens, Refs)
    && s.weak == Total(s.tokens, Weaks) + (if s.ref > 0 then 1 else 0)
    && s.objectDeletes + Total(s.tokens, Deleters) + (if s.ref > 0 then 1 else 0) == 1
    && s.blockDeletes == (if s.weak > 0 then 0 else 1)
    && (Upgrading(0) in s.tokens ==> s.ref == 0)
  }

  lemma {:induction false} TotalConcat(a: seq<Token>, b: seq<Token>, kind: Kind)
    ensures Total(a + b, kind) == Total(a, kind) + Total(b, kind)
  {
    if a == [] {
      assert a + b == b;
    } else {
      assert (a + b)[1..] == a[1..] + b;
      TotalConcat(a[1..], b, kind);
    }
  }

  lemma TotalPut(tokens: seq<Token>, i: nat, now: seq<Token>)
    requires i < |tokens|
    ensures forall kind: Kind :: Total(Put(tokens, i, now), kind) + Weight(tokens[i], kind)
                              == Total(tokens, kind) + Total(now, kind)
  {
    forall kind: Kind
      ensures Total(Put(tokens, i, now), kind) + Weight(tokens[i], kind) == Total(tokens, kind) + Total(now, kind)
    {
      assert tokens == tokens[..i] + ([tokens[i]] + tokens[i + 1..]);
      assert ([tokens[i]] + tokens[i + 1..])[1..] == tokens[i + 1..];
      TotalConcat(tokens[..i], [tokens[i]] + tokens[i + 1..], kind);
      TotalConcat(tokens[..i] + now, tokens[i + 1..], kind);
      TotalConcat(tokens[..i], now, kind);
    }
  }

  lemma InPut(tokens: seq<Token>, i: nat, now: seq<Token>, x: Token)
    requires i < |tokens| && x in Put(tokens, i, now)
    ensures x in tokens || x in now
  {
  }

  lemma Totals(a: Token, b: Token)
    ensures forall kind: Kind :: Total([], kind) == 0
    ensures forall kind: Kind :: Total([a], kind) == Weight(a, kind)
    ensures forall kind: Kind :: Total([a, b], kind) == Weight(a, kind) + Weight(b, kind)
  {
    assert [a, b][1..] == [b];
    forall kind: Kind
      ensures Total([a, b], kind) == Weight(a, kind) + Weight(b, kind)
    {
      assert Total([b], kind) == Weight(b, kind);
    }
  }

  /** A holder's share is part of the counters. */
  lemma Share(s: State, i: nat)
    requires Sound(s) && i < |s.tokens|
    ensures Weight(s.tokens[i], Refs) <= s.ref && Weight(s.tokens[i], Weaks) <= s.weak
    ensures Weight(s.tokens[i], Deleters) > 0 ==> s.objectDeletes == 0 && s.ref == 0
    ensures s.weak > 0
  {
    TotalPut(s.tokens, i, []);
    Totals(Strong, Strong);
  }

  /** What a step puts in the place of the holder's token. */
  function Now(s: State, step: Step): (now: seq<Token>)
    requires Enabled(s, step)
    ensures |now| <= 2
  {
    match step
    case CopyStrong(_) => [Strong, Strong]
    case MakeWeak(_) => [Strong, Weak]
    case DropStrong(_) => if s.ref == 1 then [Deleting] else []
    case CopyWeak(_) => [Weak, Weak]
    case DropWeak(_) => []
    case BeginUpgrade(_) => [Upgrading(s.ref)]
    case TryUpgrade(i, spurious) =>
      if s.tokens[i].count == 0 then [Weak]
      else if s.ref == s.tokens[i].count && !spurious then [Locked] else [Upgrading(s.ref)]
    case TakePointer(_) => [Doubled]
    case ReturnExtra(_) => [Strong, Weak]
    case RunDeleter(_) => [Releasing]
    case ReleaseBlock(_) => []
  }

  function Weights(now: seq<Token>, kind: Kind): nat {
    (if |now| > 0 then Weight(now[0], kind) else 0) + (if |now| > 1 then Weight(now[1], kind) else 0)
  }

  lemma StepPuts(s: State, step: Step)
    requires Sound(s) && Enabled(s, step)
    ensures Next(s, step).tokens == Put(s.tokens, step.i, Now(s, step))
    ensures forall kind: Kind :: Total(Now(s, step), kind) == Weights(Now(s, step), kind)
  {
    hide Total, Put;
    Share(s, step.i);
    var now := Now(s, step);
    assert [Deleting] + [] == [Deleting];
    Totals(Strong, Strong);
    if |now| == 1 {
      Totals(now[0], now[0]);
      assert now == [now[0]];
    } else if |now| == 2 {
      Totals(now[0], now[1]);
      assert now == [now[0], now[1]];
    }
  }

  lemma StepKeeps(s: State, step: Step)
    requires Sound(s) && Enabled(s, step)
    ensures Sound(Next(s, step))
  {
    hide Total, Put;
    Share(s, step.i);
    TotalPut(s.tokens, step.i, Now(s, step));
    StepPuts(s, step);
    if Upgrading(0) in Next(s, step).tokens {
      InPut(s.tokens, step.i, Now(s, step), Upgrading(0));
    }
  }

  // ------------------------------------------------------------ whole runs

  ghost predicate Legal(s: State, steps: seq<Step>)
    decreases steps
  {
    steps == [] || (Enabled(s, steps[0]) && Legal(Next(s, steps[0]), steps[1..]))
  }

  function Final(s: State, steps: seq<Step>): State
    requires Legal(s, steps)
    decreases steps
  {
    if steps == [] then s else Final(Next(s, steps[0]), steps[1..])
  }

  lemma {:induction false} RunKeeps(s: State, steps: seq<Step>)
    requires Sound(s) && Legal(s, steps)
    ensures Sound(Final(s, steps))
    decreases steps
  {
    hide Sound, Next, Enabled;
    if steps != [] {
      StepKeeps(s, steps[0]);
      RunKeeps(Next(s, steps[0]), steps[1..]);
    }
  }

  /** A strong count that reached zero never becomes positive again, however many upgrades are under way. */
  lemma {:induction false} DeadStaysDead(s: State, steps: seq<Step>)
    requires Sound(s) && Legal(s, steps) && s.ref == 0
    ensures Final(s, steps).ref == 0
    decreases steps
  {
    hide Sound, Total, Put;
    if steps != [] {
      assert Sound(s);
      Share(s, steps[0].i);
      StepKeeps(s, steps[0]);
      DeadStaysDead(Next(s, steps[0]), steps[1..]);
      assert Final(s, steps) == Final(Next(s, steps[0]), steps[1..]);
    }
  }

  /**
   * In every run the object is deleted at most once and the control block at most once, the block
   * only after the object and when nobody holds a pointer; and once nobody does, both are deleted.
   */
  lemma AnyRun(steps: seq<Step>)
    requires Legal(START, steps)
    ensures var s := Final(START, steps);
            && s.objectDeletes <= 1 && s.blockDeletes <= 1
            && (s.blockDeletes == 1 ==> s.objectDeletes == 1)
            && (s.blockDeletes == 1 <==> s.tokens == [])
  {
    assert Total([Strong], Refs) == 1 && Total([Strong], Weaks) == 0 && Total([Strong], Deleters) == 0;
    RunKeeps(START, steps);
    var s := Final(START, steps);
    if s.tokens != [] {
      Share(s, 0);
    }
  }

  /** No step touches a deleted object or a deleted block: holders of a share keep them alive. */
  lemma NothingDangles(s: State, step: Step)
    requires Sound(s) && Enabled(s, step)
    ensures s.blockDeletes == 0
    ensures Weight(s.tokens[step.i], Refs) > 0 || step.RunDeleter? ==> s.objectDeletes == 0
  {
    Share(s, step.i);
  }

  /** An upgrade succeeds only while the object lives, and gives up only if no strong pointer is left. */
  lemma UpgradeResult(s: State, i: nat, spurious: bool)
    requires Sound(s) && Enabled(s, TryUpgrade(i, spurious))
    ensures var s' := Next(s, TryUpgrade(i, spurious));
            && (s'.tokens[i] == Locked ==> s.ref > 0 && s.objectDeletes == 0 && s'.ref == s.ref + 1)
            && (s'.tokens[i] == Weak ==> s.ref == 0 && s' == s.(tokens := s.tokens[i := Weak]))
            && (s'.tokens[i].Upgrading? ==> s' == s.(tokens := s.tokens[i := Upgrading(s.ref)]))
  {
    var s' := Next(s, TryUpgrade(i, spurious));
    assert s.tokens[i] == Upgrading(0) ==> Upgrading(0) in s.tokens;
    assert s'.tokens == s.tokens[i := s'.tokens[i]];
  }

  // ------------------------------------------------------------ what an operation gives its holder

  lemma PutGives(tokens: seq<Token>, i: nat, now: seq<Token>)
    requires i < |tokens|
    ensures multiset(Put(tokens, i, now)) + multiset{tokens[i]} == multiset(tokens) + multiset(now)
  {
    assert tokens == tokens[..i] + [tokens[i]] + tokens[i + 1..];
  }

  /** What the holders have gained and lost. */
  ghost predicate Changes(before: seq<Token>, lost: seq<Token>, gained: seq<Token>, after: seq<Token>) {
    multiset(after) + multiset(lost) == multiset(before) + multiset(gained)
  }

  lemma SameGain(before: seq<Token>, x: Token, gained: seq<Token>, after: seq<Token>)
    requires Changes(before, [x], [x] + gained, after)
    ensures Changes(before, [], gained, after)
  {
    assert multiset([x] + gained) == multiset{x} + multiset(gained);
    forall y: Token
      ensures multiset(after)[y] == (multiset(before) + multiset(gained))[y]
    {
      assert (multiset(after) + multiset{x})[y] == (multiset(before) + (multiset{x} + multiset(gained)))[y];
    }
    assert multiset(after) == multiset(before) + multiset(gained);
  }

  /** A copy adds one pointer of the kind asked for. */
  lemma CopyGives(s: State, i: nat)
    requires Sound(s) && i < |s.tokens|
    ensures s.tokens[i] == Strong ==>
      && Changes(s.tokens, [], [Strong], Next(s, CopyStrong(i)).tokens) && Next(s, CopyStrong(i)).ref == s.ref + 1
      && Changes(s.tokens, [], [Weak], Next(s, MakeWeak(i)).tokens) && Next(s, MakeWeak(i)).weak == s.weak + 1
    ensures s.tokens[i] == Weak ==>
      Changes(s.tokens, [], [Weak], Next(s, CopyWeak(i)).tokens) && Next(s, CopyWeak(i)).weak == s.weak + 1
  {
    hide Put, Changes;
    var x := s.tokens[i];
    PutGivesChange(s.tokens, i, [x] + [Strong]);
    PutGivesChange(s.tokens, i, [x] + [Weak]);
    if x == Strong {
      assert [x] + [Strong] == [Strong, Strong] && [x] + [Weak] == [Strong, Weak];
      SameGain(s.tokens, x, [Strong], Next(s, CopyStrong(i)).tokens);
      SameGain(s.tokens, x, [Weak], Next(s, MakeWeak(i)).tokens);
    } else if x == Weak {
      assert [x] + [Weak] == [Weak, Weak];
      SameGain(s.tokens, x, [Weak], Next(s, CopyWeak(i)).tokens);
    }
  }

  lemma PutGivesChange(tokens: seq<Token>, i: nat, now: seq<Token>)
    requires i < |tokens|
    ensures Changes(tokens, [tokens[i]], now, Put(tokens, i, now))
  {
    PutGives(tokens, i, now);
  }

  /** A dropped pointer is gone; whoever drops the last strong one has the deleter to run. */
  lemma DropTakes(s: State, i: nat)
    requires Sound(s) && i < |s.tokens|
    ensures s.tokens[i] == Strong ==>
      var s' := Next(s, DropStrong(i));
      Changes(s.tokens, [Strong], if s.ref == 1 then [Deleting] else [], s'.tokens) && s'.ref == s.ref - 1
    ensures s.tokens[i] == Weak ==>
      Changes(s.tokens, [Weak], [], Next(s, DropWeak(i)).tokens) && Next(s, DropWeak(i)).weak == s.weak - 1
    ensures s.tokens[i] == Deleting ==>
      var s' := Next(s, RunDeleter(i));
      Changes(s.tokens, [Deleting], [Releasing], s'.tokens) && s'.objectDeletes == s.objectDeletes + 1
    ensures s.tokens[i] == Releasing ==>
      Changes(s.tokens, [Releasing], [], Next(s, ReleaseBlock(i)).tokens)
  {
    hide Put, Changes;
    Share(s, i);
    assert [Deleting] + [] == [Deleting];
    PutGivesChange(s.tokens, i, []);
    PutGivesChange(s.tokens, i, [Deleting]);
    PutGivesChange(s.tokens, i, [Releasing]);
  }

  lemma First(s: State, step: Step, rest: seq<Step>)
    requires Enabled(s, step) && Legal(Next(s, step), rest)
    ensures Legal(s, [step] + rest) && Final(s, [step] + rest) == Final(Next(s, step), rest)
  {
    assert ([step] + rest)[1..] == rest;
  }

  lemma PutAgain(tokens: seq<Token>, i: nat, x: Token, now: seq<Token>)
    requires i < |tokens|
    ensures i < |Put(tokens, i, [x])| && Put(tokens, i, [x])[i] == x
    ensures Put(Put(tokens, i, [x]), i, now) == Put(tokens, i, now)
  {
  }

  /** An upgrade that nobody disturbs, of an object that is alive, ends in a strong pointer beside the weak one. */
  lemma UpgradeAlone(s: State, i: nat) returns (steps: seq<Step>)
    requires Sound(s) && i < |s.tokens| && s.tokens[i] == Weak && s.ref > 0
    ensures Legal(s, steps) && (forall k: nat :: k < |steps| ==> steps[k].i == i)
    ensures var s' := Final(s, steps);
            && Changes(s.tokens, [], [Strong], s'.tokens) && s'.ref == s.ref + 1 && s'.weak == s.weak
            && s'.objectDeletes == s.objectDeletes == 0
  {
    hide Put, Changes, Sound;
    Alive(s);
    var t := s.tokens;
    PutAgain(t, i, Upgrading(s.ref), [Locked]);
    PutAgain(t, i, Locked, [Doubled]);
    PutAgain(t, i, Doubled, [Strong, Weak]);
    var s1 := Next(s, BeginUpgrade(i));
    var s2 := Next(s1, TryUpgrade(i, false));
    var s3 := Next(s2, TakePointer(i));
    var s4 := Next(s3, ReturnExtra(i));
    First(s3, ReturnExtra(i), []);
    First(s2, TakePointer(i), [ReturnExtra(i)] + []);
    First(s1, TryUpgrade(i, false), [TakePointer(i)] + ([ReturnExtra(i)] + []));
    steps := [BeginUpgrade(i)] + ([TryUpgrade(i, false)] + ([TakePointer(i)] + ([ReturnExtra(i)] + [])));
    First(s, BeginUpgrade(i), steps[1..]);
    assert Final(s, steps) == s4;
    PutGivesChange(t, i, [Strong, Weak]);
    Swapped(t, [Weak], [Strong, Weak], [Weak] + [Strong], s4.tokens);
    SameGain(t, Weak, [Strong], s4.tokens);
  }

  lemma Alive(s: State)
    requires Sound(s) && s.ref > 0
    ensures s.objectDeletes == 0
  {
  }

  lemma Swapped(before: seq<Token>, lost: seq<Token>, gained: seq<Token>, other: seq<Token>, after: seq<Token>)
    requires Changes(before, lost, gained, after) && |gained| == |other| == 2
    requires gained[0] == other[1] && gained[1] == other[0]
    ensures Changes(before, lost, other, after)
  {
    assert gained == [gained[0], gained[1]] && other == [gained[1], gained[0]];
  }

  // ------------------------------------------------------------ everything is released in the end

  /** How many steps a token is from being gone, at most. */
  function Distance(token: Token): nat {
    match token
    case Weak => 1
    case Releasing => 1
    case Deleting => 2
    case Strong => 3
    case Doubled => 5
    case Locked => 6
    case Upgrading(_) => 8
  }

  /** The same for a holder that is about to step. */
  function HeadDistance(s: State): nat
    requires s.tokens != []
  {
    match s.tokens[0]
    case Upgrading(count) => if count == 0 then 2 else if count == s.ref then 7 else 8
    case token => Distance(token)
  }

  function TailDistance(tokens: seq<Token>): nat {
    if tokens == [] then 0 else Distance(tokens[0]) + TailDistance(tokens[1..])
  }

  function Rank(s: State): nat {
    if s.tokens == [] then 0 else HeadDistance(s) + TailDistance(s.tokens[1..])
  }

  /** What the first holder does to get rid of what it has. */
  function Release(s: State): Step
    requires s.tokens != []
  {
    match s.tokens[0]
    case Strong => DropStrong(0)
    case Weak => DropWeak(0)
    case Upgrading(_) => TryUpgrade(0, false)
    case Locked => TakePointer(0)
    case Doubled => ReturnExtra(0)
    case Deleting => RunDeleter(0)
    case Releasing => ReleaseBlock(0)
  }

  /** The rank of a state whose first tokens are `now`. */
  lemma RankOf(s: State, now: seq<Token>, tail: seq<Token>)
    requires s.tokens == now + tail && |now| <= 2
    ensures now == [] ==> Rank(s) <= TailDistance(tail)
    ensures |now| == 1 ==> Rank(s) == HeadDistance(s) + TailDistance(tail)
    ensures |now| == 2 ==> Rank(s) == HeadDistance(s) + Distance(now[1]) + TailDistance(tail)
  {
    if now == [] {
      assert s.tokens == tail;
    } else if |now| == 1 {
      assert s.tokens[1..] == tail;
    } else {
      assert s.tokens[1..][1..] == tail;
    }
  }

  /** What the step leaves of the token is nearer to being gone. */
  lemma TokenNearer(s: State)
    requires Sound(s) && s.tokens != []
    ensures Enabled(s, Release(s))
    ensures var now, s' := Now(s, Release(s)), Next(s, Release(s));
            && (|now| == 1 ==> s'.tokens != [] && s'.tokens[0] == now[0] && HeadDistance(s') < HeadDistance(s))
            && (|now| == 2 ==> s'.tokens != [] && s'.tokens[0] == now[0]
                               && HeadDistance(s') + Distance(now[1]) < HeadDistance(s))
  {
    hide Total;
    Share(s, 0);
    StepPuts(s, Release(s));
    assert s.tokens[0] == Upgrading(0) ==> Upgrading(0) in s.tokens;
  }

  lemma ReleaseNearer(s: State)
    requires Sound(s) && s.tokens != []
    ensures Enabled(s, Release(s)) && Rank(Next(s, Release(s))) < Rank(s)
  {
    hide Total, Sound, HeadDistance, Next, Now, Release;
    TokenNearer(s);
    StepPuts(s, Release(s));
    FirstStep(s);
    var now, tail := Now(s, Release(s)), s.tokens[1..];
    assert Put(s.tokens, 0, now) == now + tail;
    RankOf(Next(s, Release(s)), now, tail);
    HeadPositive(s);
  }

  lemma FirstStep(s: State)
    requires s.tokens != []
    ensures Release(s).i == 0
  {
  }

  lemma HeadPositive(s: State)
    requires s.tokens != []
    ensures HeadDistance(s) > 0
  {
  }

  /** From every reachable state everything can still be released; then the object has been deleted, and its
      block, each exactly once. */
  lemma Releases(s: State) returns (steps: seq<Step>)
    requires Sound(s)
    ensures Legal(s, steps) && Final(s, steps).tokens == []
    ensures Final(s, steps).objectDeletes == 1 && Final(s, steps).blockDeletes == 1
    decreases Rank(s)
  {
    hide Next, Enabled, Rank, Put;
    if s.tokens == [] {
      steps := [];
      assert forall kind: Kind :: Total([], kind) == 0;
    } else {
      ReleaseNearer(s);
      StepKeeps(s, Release(s));
      var rest := Releases(Next(s, Release(s)));
      First(s, Release(s), rest);
      steps := [Release(s)] + rest;
    }
  }
}

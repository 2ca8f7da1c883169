/** The message pool, down to its atomic operations. A message's `lifetime` is twice its
    generation, plus one while it is released; any number of threads acquire and release, and
    the garbage collector may empty the pool at any time. */
module Pool {
  import opened Base

  type MsgId = nat
  type Tid = nat

  /** Where a thread is between two atomic operations. */
  datatype Thread =
    | Got(m: MsgId)                        // acquire: taken from the pool, counter not yet lowered
    | Lowered(m: MsgId)                    // acquire: still marked as its last handler left it
    | Cleared(m: MsgId)                    // acquire: lifetime not yet advanced
    | Loaded(m: MsgId, state: nat)         // release: lifetime read, not yet swapped
    | Checked(m: MsgId, generation: nat)   // conditional release: not hijacked when looked at
    | Won(m: MsgId)                        // release: swap succeeded
    | Counted(m: MsgId, value: int)        // release: counter read
    | Raised(m: MsgId)                     // release: counter raised, message not yet put
    | Idle

  datatype Message = Message(lifetime: nat, hijacked: bool)

  /** A successful release: the generation it ended, and the one it was meant for, if it named one. */
  datatype Freed = Freed(m: MsgId, generation: nat, meant: Option<nat>)

  datatype State = State(
    messages: map<MsgId, Message>,
    pool: multiset<MsgId>,
    counter: int,
    threads: map<Tid, Thread>,
    freed: seq<Freed>,
    collected: nat)                        // messages the garbage collector took from the pool

  const START := State(map[], multiset{}, 0, map[], [], 0)

  datatype Event =
    | New(m: MsgId)                        // acquire from an empty pool
    | Get(t: Tid, m: MsgId)                // acquire
    | Release(t: Tid, m: MsgId)
    | ReleaseIf(t: Tid, m: MsgId, generation: nat)
    | Hijack(m: MsgId)
    | Collect(m: MsgId)
    | Step(t: Tid)                         // the thread's next atomic operation

  function Set(s: State, t: Tid, th: Thread): State {
    s.(threads := s.threads[t := th])
  }

  predicate Free(s: State, t: Tid) {
    t in s.threads ==> s.threads[t].Idle?
  }

  /** Compare-and-swap of a lifetime from released-not to released. */
  function Swap(s: State, t: Tid, m: MsgId, state: nat, meant: Option<nat>): State {
    if m in s.messages && s.messages[m].lifetime == state && state % 2 == 0
    then Set(s.(messages := s.messages[m := s.messages[m].(lifetime := state + 1)],
                freed := s.freed + [Freed(m, state / 2, meant)]), t, Won(m))
    else Set(s, t, Idle)
  }

  function Move(s: State, t: Tid, max: int): State
    requires t in s.threads
  {
    match s.threads[t]
    case Got(m) => Set(s.(counter := s.counter - 1), t, Lowered(m))
    case Lowered(m) =>
      if m in s.messages
      then Set(s.(messages := s.messages[m := s.messages[m].(hijacked := false)]), t, Cleared(m)) else s
    case Cleared(m) =>
      if m in s.messages
      then Set(s.(messages := s.messages[m := s.messages[m].(lifetime := s.messages[m].lifetime + 1)]), t, Idle) else s
    case Loaded(m, state) => Swap(s, t, m, state, None)
    case Checked(m, generation) => Swap(s, t, m, 2 * generation, Some(generation))
    case Won(m) => Set(s, t, Counted(m, s.counter))
    case Counted(m, v) =>
      if v >= max then Set(s, t, Idle)
      else if s.counter == v then Set(s.(counter := v + 1), t, Raised(m))
      else Set(s, t, Won(m))
    case Raised(m) => Set(s.(pool := s.pool + multiset{m}), t, Idle)
    case Idle => s
  }

  function Next(s: State, max: int, e: Event): State {
    match e
    case New(m) => if m in s.messages then s else s.(messages := s.messages[m := Message(0, false)])
    case Get(t, m) => if Free(s, t) && m in s.pool then Set(s.(pool := s.pool - multiset{m}), t, Got(m)) else s
    case Release(t, m) =>
      if !Free(s, t) || m !in s.messages || s.messages[m].lifetime % 2 == 1 then s
      else Set(s, t, Loaded(m, s.messages[m].lifetime))
    case ReleaseIf(t, m, generation) =>
      if !Free(s, t) || m !in s.messages || s.messages[m].hijacked then s else Set(s, t, Checked(m, generation))
    case Hijack(m) =>
      if m in s.messages then s.(messages := s.messages[m := s.messages[m].(hijacked := true)]) else s
    case Collect(m) =>
      if m in s.pool then s.(pool := s.pool - multiset{m}, collected := s.collected + 1) else s
    case Step(t) => if t in s.threads then Move(s, t, max) else s
  }

  function Run(max: int, events: seq<Event>): State {
    if events == [] then START else Next(Run(max, events[..|events| - 1]), max, events[|events| - 1])
  }

  // ---------------------------------------------------------------- invariant

  /** The thread has the released message to itself. */
  predicate Owns(th: Thread, m: MsgId) {
    (th.Got? || th.Lowered? || th.Cleared? || th.Won? || th.Counted? || th.Raised?) && th.m == m
  }

  /** Threads whose message counts towards the pool without being in it. */
  ghost function Between(s: State): set<Tid> {
    set t | t in s.threads && (s.threads[t].Got? || s.threads[t].Raised?)
  }

  /** The pool holds released messages only, none twice. */
  ghost predicate Pooled(s: State) {
    && (forall m :: s.pool[m] <= 1)
    && (forall m :: m in s.pool ==> m in s.messages && s.messages[m].lifetime % 2 == 1)
  }

  /** A message a thread owns is released, not pooled, and no other thread's. */
  ghost predicate Owned(s: State) {
    && (forall t, m :: t in s.threads && Owns(s.threads[t], m) ==>
          m in s.messages && s.messages[m].lifetime % 2 == 1 && m !in s.pool)
    && (forall t, r, m :: t in s.threads && r in s.threads && t != r && Owns(s.threads[t], m) ==> !Owns(s.threads[r], m))
  }

  /** A released message has at most one owner, the pool or a thread; one in use has none. */
  ghost predicate OneOwner(s: State) {
    Pooled(s) && Owned(s)
  }

  /** The counter is the pool's size and what is on its way, plus what the collector took. */
  ghost predicate Counts(s: State, max: int) {
    s.counter == |s.pool| + |Between(s)| + s.collected && s.counter <= max
  }

  /** Each generation ended once, and by a release meant for it. */
  ghost predicate EndedOnce(s: State) {
    && (forall i :: 0 <= i < |s.freed| ==>
          && s.freed[i].m in s.messages && 2 * s.freed[i].generation < s.messages[s.freed[i].m].lifetime
          && (s.freed[i].meant.Some? ==> s.freed[i].meant.value == s.freed[i].generation))
    && (forall i, j :: 0 <= i < j < |s.freed| && s.freed[i].m == s.freed[j].m ==>
          s.freed[i].generation < s.freed[j].generation)
  }

  ghost predicate Inv(s: State, max: int) {
    OneOwner(s) && Counts(s, max) && EndedOnce(s)
  }

  // ---------------------------------------------------------------- every step keeps it

  lemma BetweenAfter(s: State, s': State, t: Tid, th: Thread)
    requires s'.threads == s.threads[t := th]
    ensures |Between(s')| == |Between(s)| + (if th.Got? || th.Raised? then 1 else 0) - (if t in Between(s) then 1 else 0)
  {
    assert Between(s') == Between(s) - {t} + if th.Got? || th.Raised? then {t} else {};
  }

  /** Nobody but `t` has to do with the released message `x`. */
  ghost predicate Alone(s: State, t: Tid, x: MsgId) {
    forall r :: r in s.threads && r != t ==> !Owns(s.threads[r], x)
  }

  lemma AloneWith(s: State, t: Tid, x: MsgId)
    requires OneOwner(s)
    requires (t in s.threads && Owns(s.threads[t], x)) || x in s.pool || x !in s.messages || s.messages[x].lifetime % 2 == 0
    ensures Alone(s, t, x)
  {
  }

  /** Only `x` changes hands: nothing else is put, taken, released or reused. */
  ghost predicate OnlyAbout(s: State, s': State, th: Thread, x: MsgId) {
    && (forall m :: m != x ==> s'.pool[m] == s.pool[m] && !Owns(th, m))
    && (forall m :: m != x && m in s.messages ==>
          m in s'.messages && s'.messages[m].lifetime % 2 == s.messages[m].lifetime % 2)
    && s'.pool[x] <= 1 && (Owns(th, x) ==> x !in s'.pool)
    && (Owns(th, x) || x in s'.pool ==> x in s'.messages && s'.messages[x].lifetime % 2 == 1)
  }

  lemma PassedPool(s: State, s': State, th: Thread, x: MsgId)
    requires Pooled(s) && OnlyAbout(s, s', th, x)
    ensures Pooled(s')
  {
    hide Owns;
  }

  lemma PassedThread(s: State, s': State, t: Tid, th: Thread, x: MsgId, r: Tid, m: MsgId)
    requires Owned(s) && s'.threads == s.threads[t := th] && Alone(s, t, x) && OnlyAbout(s, s', th, x)
    requires r in s'.threads && Owns(s'.threads[r], m)
    ensures m in s'.messages && s'.messages[m].lifetime % 2 == 1 && m !in s'.pool
    ensures forall o :: o in s'.threads && o != r ==> !Owns(s'.threads[o], m)
  {
    hide Owns;
    if r == t {
      assert m == x;
    } else {
      assert s.threads[r] == s'.threads[r] && m != x;
    }
  }

  /** Ownership is passed on, for one message at a time. */
  lemma Passed(s: State, s': State, t: Tid, th: Thread, x: MsgId)
    requires OneOwner(s) && s'.threads == s.threads[t := th] && Alone(s, t, x) && OnlyAbout(s, s', th, x)
    ensures OneOwner(s')
  {
    hide OnlyAbout, Alone, Pooled, Owns;
    PassedPool(s, s', th, x);
    forall r, m | r in s'.threads && Owns(s'.threads[r], m)
      ensures m in s'.messages && s'.messages[m].lifetime % 2 == 1 && m !in s'.pool
    {
      PassedThread(s, s', t, th, x, r, m);
    }
    forall r, o, m | r in s'.threads && o in s'.threads && r != o && Owns(s'.threads[r], m)
      ensures !Owns(s'.threads[o], m)
    {
      PassedThread(s, s', t, th, x, r, m);
    }
  }

  lemma SwapKeepsOwners(s: State, t: Tid, m: MsgId, state: nat, meant: Option<nat>)
    requires OneOwner(s) && t in s.threads && (s.threads[t].Loaded? || s.threads[t].Checked?)
    ensures OneOwner(Swap(s, t, m, state, meant))
  {
    hide OneOwner, Alone;
    var s' := Swap(s, t, m, state, meant);
    if s'.threads[t].Won? {
      AloneWith(s, t, m);
      NotPooled(s, m);
      Passed(s, s', t, Won(m), m);
    } else {
      Resigned(s, s', t);
    }
  }

  lemma NotPooled(s: State, m: MsgId)
    requires OneOwner(s)
    ensures s.pool[m] <= 1
    ensures m in s.messages && s.messages[m].lifetime % 2 == 0 ==> m !in s.pool
    ensures forall t :: t in s.threads && Owns(s.threads[t], m) ==> m !in s.pool && m in s.messages && s.messages[m].lifetime % 2 == 1
    ensures m in s.pool ==> m in s.messages && s.messages[m].lifetime % 2 == 1
  {
  }

  /** A thread that owns nothing any more. */
  lemma Resigned(s: State, s': State, t: Tid)
    requires OneOwner(s) && t in s'.threads && s'.threads == s.threads[t := s'.threads[t]]
    requires s'.pool == s.pool && s'.messages == s.messages && forall m :: !Owns(s'.threads[t], m)
    ensures OneOwner(s')
  {
  }

  lemma SwapEndsOnce(s: State, t: Tid, m: MsgId, state: nat, meant: Option<nat>)
    requires EndedOnce(s) && (meant.Some? ==> state == 2 * meant.value)
    ensures EndedOnce(Swap(s, t, m, state, meant))
  {
  }

  lemma MoveKeepsOwners(s: State, t: Tid, max: int)
    requires OneOwner(s) && t in s.threads
    ensures OneOwner(Move(s, t, max))
  {
    hide Swap, OneOwner, Alone;
    var s' := Move(s, t, max);
    match s.threads[t]
    case Loaded(m, state) => SwapKeepsOwners(s, t, m, state, None);
    case Checked(m, generation) => SwapKeepsOwners(s, t, m, 2 * generation, Some(generation));
    case Idle =>
    case _ =>
      var m := s.threads[t].m;
      assert Owns(s.threads[t], m);
      NotPooled(s, m);
      AloneWith(s, t, m);
      Passed(s, s', t, s'.threads[t], m);
  }

  lemma MoveKeepsCounts(s: State, t: Tid, max: int)
    requires Counts(s, max) && t in s.threads
    ensures Counts(Move(s, t, max), max)
  {
    var s' := Move(s, t, max);
    if s' != s {
      BetweenAfter(s, s', t, s'.threads[t]);
    }
  }

  lemma MoveEndsOnce(s: State, t: Tid, max: int)
    requires EndedOnce(s) && t in s.threads
    ensures EndedOnce(Move(s, t, max))
  {
    hide Swap;
    match s.threads[t]
    case Loaded(m, state) => SwapEndsOnce(s, t, m, state, None);
    case Checked(m, generation) => SwapEndsOnce(s, t, m, 2 * generation, Some(generation));
    case _ =>
  }

  lemma StepKeepsInv(s: State, max: int, e: Event)
    requires Inv(s, max)
    ensures Inv(Next(s, max, e), max)
  {
    hide Move;
    match e
    case Step(t) =>
      if t in s.threads {
        MoveKeepsOwners(s, t, max);
        MoveKeepsCounts(s, t, max);
        MoveEndsOnce(s, t, max);
      }
    case _ => OtherKeeps(s, max, e);
  }

  lemma OtherKeeps(s: State, max: int, e: Event)
    requires Inv(s, max) && !e.Step?
    ensures Inv(Next(s, max, e), max)
  {
    hide Next, OneOwner, Counts, EndedOnce;
    OtherKeepsOwners(s, max, e);
    OtherKeepsCounts(s, max, e);
    OtherEndsOnce(s, max, e);
  }

  lemma OtherEndsOnce(s: State, max: int, e: Event)
    requires EndedOnce(s) && !e.Step?
    ensures EndedOnce(Next(s, max, e))
  {
  }

  lemma OtherKeepsOwners(s: State, max: int, e: Event)
    requires OneOwner(s) && !e.Step?
    ensures OneOwner(Next(s, max, e))
  {
    hide OneOwner, Alone;
    var s' := Next(s, max, e);
    if s' != s {
      match e
      case Get(t, m) =>
        NotPooled(s, m);
        AloneWith(s, t, m);
        Passed(s, s', t, Got(m), m);
      case Release(t, m) => Resigned(s, s', t);
      case ReleaseIf(t, m, generation) => Resigned(s, s', t);
      case New(m) => Kept(s, s');
      case Hijack(m) => Kept(s, s');
      case Collect(m) => Kept(s, s');
      case _ =>
    }
  }

  lemma Kept(s: State, s': State)
    requires OneOwner(s) && s'.threads == s.threads && s'.pool <= s.pool
    requires forall m :: m in s.messages ==> m in s'.messages && s'.messages[m].lifetime == s.messages[m].lifetime
    ensures OneOwner(s')
  {
    assert forall m :: s'.pool[m] <= s.pool[m];
  }

  lemma OtherKeepsCounts(s: State, max: int, e: Event)
    requires Counts(s, max) && !e.Step?
    ensures Counts(Next(s, max, e), max)
  {
    var s' := Next(s, max, e);
    match e
    case Get(t, m) => if s' != s { BetweenAfter(s, s', t, s'.threads[t]); }
    case Release(t, m) => if s' != s { BetweenAfter(s, s', t, s'.threads[t]); }
    case ReleaseIf(t, m, generation) => if s' != s { BetweenAfter(s, s', t, s'.threads[t]); }
    case New(m) => assert Between(s') == Between(s);
    case Hijack(m) => assert Between(s') == Between(s);
    case Collect(m) => assert Between(s') == Between(s);
    case _ =>
  }

  lemma {:induction false} RunKeepsInv(max: int, events: seq<Event>)
    requires 0 <= max
    ensures Inv(Run(max, events), max)
    decreases |events|
  {
    hide Next, OneOwner, Counts, EndedOnce;
    if events == [] {
      StartKeeps(max);
    } else {
      RunKeepsInv(max, events[..|events| - 1]);
      StepKeepsInv(Run(max, events[..|events| - 1]), max, events[|events| - 1]);
    }
  }

  lemma StartKeeps(max: int)
    requires 0 <= max
    ensures Inv(START, max)
  {
    assert Between(START) == {};
  }

  /** Pool ownership over every interleaving: no message is in the pool twice, or in the pool while a
      thread works on it or somebody uses it, and no two threads work on one; the pool keeps its maximum; no acquisition is
      released twice; and a release that names a generation ends that one and no later one. */
  lemma PoolIsSafe(max: int, events: seq<Event>)
    requires 0 <= max
    ensures var s := Run(max, events);
            && |s.pool| <= max && (forall m :: s.pool[m] <= 1)
            && (forall m :: m in s.pool ==> m in s.messages && s.messages[m].lifetime % 2 == 1)
            && (forall t, m :: t in s.threads && Owns(s.threads[t], m) ==> m !in s.pool)
            && (forall t, r, m :: t in s.threads && r in s.threads && t != r && Owns(s.threads[t], m) ==> !Owns(s.threads[r], m))
            && (forall i, j :: 0 <= i < j < |s.freed| ==>
                  s.freed[i].m != s.freed[j].m || s.freed[i].generation != s.freed[j].generation)
            && (forall i :: 0 <= i < |s.freed| && s.freed[i].meant.Some? ==> s.freed[i].meant.value == s.freed[i].generation)
  {
    hide Run;
    RunKeepsInv(max, events);
  }

  lemma {:induction false} CollectedStays(max: int, events: seq<Event>, i: nat)
    requires i <= |events|
    ensures Run(max, events[..i]).collected <= Run(max, events).collected
    decreases |events|
  {
    hide Next;
    if i == |events| {
      assert events[..i] == events;
    } else {
      var init := events[..|events| - 1];
      CollectedStays(max, init, i);
      assert init[..i] == events[..i];
      StepCollects(Run(max, init), max, events[|events| - 1]);
    }
  }

  lemma StepCollects(s: State, max: int, e: Event)
    ensures s.collected <= Next(s, max, e).collected
  {}

  /** What the collector takes is never counted down, so it lowers what the pool can hold for good:
      the pool never holds more than what is left of its maximum, and once the collector has taken
      as many messages as the maximum, nothing is pooled again, however the run goes on. */
  lemma CollectionsUseUpThePool(max: int, events: seq<Event>, i: nat)
    requires 0 <= max && i <= |events|
    ensures |Run(max, events).pool| <= max - Run(max, events[..i]).collected
    ensures Run(max, events[..i]).collected >= max ==> Run(max, events).pool == multiset{}
  {
    hide Run;
    RunKeepsInv(max, events);
    CollectedStays(max, events, i);
  }

  /** It happens, whatever the maximum: release and collect that many messages. */
  lemma {:induction false} PoolCanBeUsedUp(max: nat, n: nat) returns (events: seq<Event>)
    requires n <= max
    ensures var s := Run(max, events);
            && s.collected == n == s.counter && s.pool == multiset{} && Free(s, 0)
            && forall m :: m in s.messages ==> m < n
  {
    if n == 0 {
      return [];
    }
    var before := PoolCanBeUsedUp(max, n - 1);
    var m := n - 1;
    events := OneCollected(max, before, m);
  }

  /** One more message made, released and collected. */
  lemma OneCollected(max: nat, before: seq<Event>, m: MsgId) returns (events: seq<Event>)
    requires Free(Run(max, before), 0) && m !in Run(max, before).messages && Run(max, before).counter < max
    ensures var s, s' := Run(max, before), Run(max, events);
            && s'.pool == s.pool && s'.counter == s.counter + 1 && s'.collected == s.collected + 1
            && Free(s', 0) && s'.messages.Keys == s.messages.Keys + {m}
  {
    hide *;
    var s := Run(max, before);
    var made := Then(max, before, New(m));
    MadeIsUnused(s, max, m);
    var released := Then(max, made, Release(0, m));
    var pooled := ThenSteps(max, released, 0, 4);
    ReleasePools(Run(max, made), max, 0, m);
    events := Then(max, pooled, Collect(m));
    CollectTakes(Run(max, pooled), max, m);
    PutAndTaken(s, m);
  }

  lemma PutAndTaken(s: State, m: MsgId)
    ensures s.pool + multiset{m} - multiset{m} == s.pool && m in s.pool + multiset{m}
  {}

  lemma {:induction false} ThenSteps(max: int, before: seq<Event>, t: Tid, k: nat) returns (events: seq<Event>)
    ensures Run(max, events) == Steps(Run(max, before), max, t, k) && before <= events
  {
    hide Run, Next;
    events := before;
    if k > 0 {
      events := ThenSteps(max, before, t, k - 1);
      events := Then(max, events, Step(t));
    }
  }

  lemma Then(max: int, before: seq<Event>, e: Event) returns (events: seq<Event>)
    ensures Run(max, events) == Next(Run(max, before), max, e) && before <= events
  {
    events := before + [e];
    assert events[..|before|] == before;
  }

  lemma MadeIsUnused(s: State, max: int, m: MsgId)
    requires m !in s.messages
    ensures Next(s, max, New(m)) == s.(messages := s.messages[m := Message(0, false)])
    ensures Free(s, 0) ==> Free(Next(s, max, New(m)), 0)
  {}

  lemma CollectTakes(s: State, max: int, m: MsgId)
    requires m in s.pool
    ensures Next(s, max, Collect(m)) == s.(pool := s.pool - multiset{m}, collected := s.collected + 1)
    ensures Free(s, 0) ==> Free(Next(s, max, Collect(m)), 0)
  {}

  function Steps(s: State, max: int, t: Tid, k: nat): State {
    if k == 0 then s else Next(Steps(s, max, t, k - 1), max, Step(t))
  }

  /** Left alone, a release puts the message into a pool that has room. */
  lemma ReleasePools(s: State, max: int, t: Tid, m: MsgId)
    requires Free(s, t) && m in s.messages && s.messages[m].lifetime % 2 == 0 && s.counter < max
    ensures var s' := Steps(Next(s, max, Release(t, m)), max, t, 4);
            && s'.messages == s.messages[m := s.messages[m].(lifetime := s.messages[m].lifetime + 1)]
            && s'.pool == s.pool + multiset{m} && s'.counter == s.counter + 1 && s'.collected == s.collected && Free(s', t)
  {
    var s0 := Next(s, max, Release(t, m));
    assert s0.threads[t] == Loaded(m, s.messages[m].lifetime);
    var s1 := Next(s0, max, Step(t));
    assert Steps(s0, max, t, 1) == s1 && s1.threads[t] == Won(m);
    var s2 := Next(s1, max, Step(t));
    assert Steps(s0, max, t, 2) == s2 && s2.threads[t] == Counted(m, s.counter);
    var s3 := Next(s2, max, Step(t));
    assert Steps(s0, max, t, 3) == s3 && s3.threads[t] == Raised(m);
    var s4 := Next(s3, max, Step(t));
    assert Steps(s0, max, t, 4) == s4;
  }

  /** ... and an acquisition brings it back as the next generation, leaving the pool as it was. */
  lemma AcquireRevives(s: State, max: int, t: Tid, m: MsgId)
    requires Free(s, t) && m in s.messages && m in s.pool
    ensures var s' := Steps(Next(s, max, Get(t, m)), max, t, 3);
            && s'.messages == s.messages[m := Message(s.messages[m].lifetime + 1, false)]
            && s'.pool == s.pool - multiset{m} && s'.counter == s.counter - 1 && Free(s', t)
  {
    var s0 := Next(s, max, Get(t, m));
    var s1 := Next(s0, max, Step(t));
    assert Steps(s0, max, t, 1) == s1 && s1.threads[t] == Lowered(m);
    var s2 := Next(s1, max, Step(t));
    assert Steps(s0, max, t, 2) == s2 && s2.threads[t] == Cleared(m);
    var s3 := Next(s2, max, Step(t));
    assert Steps(s0, max, t, 3) == s3;
  }

  /** A conditional release with a stale generation changes no message and nothing in the pool. */
  lemma StaleReleaseIsHarmless(s: State, max: int, t: Tid, m: MsgId, generation: nat)
    requires Free(s, t) && m in s.messages && s.messages[m].lifetime != 2 * generation
    ensures var s' := Steps(Next(s, max, ReleaseIf(t, m, generation)), max, t, 1);
            s'.messages == s.messages && s'.pool == s.pool && s'.counter == s.counter && s'.freed == s.freed
  {
    var s0 := Next(s, max, ReleaseIf(t, m, generation));
    assert Steps(s0, max, t, 0) == s0;
  }

  /** ... and leaves it to the garbage collector otherwise. */
  lemma ReleaseDrops(s: State, max: int, t: Tid, m: MsgId)
    requires Free(s, t) && m in s.messages && s.messages[m].lifetime % 2 == 0 && s.counter >= max
    ensures var s' := Steps(Next(s, max, Release(t, m)), max, t, 4);
            && s'.messages == s.messages[m := s.messages[m].(lifetime := s.messages[m].lifetime + 1)]
            && s'.pool == s.pool && s'.counter == s.counter && s'.collected == s.collected && Free(s', t)
  {
    var s0 := Next(s, max, Release(t, m));
    assert s0.threads[t] == Loaded(m, s.messages[m].lifetime);
    var s1 := Next(s0, max, Step(t));
    assert Steps(s0, max, t, 1) == s1 && s1.threads[t] == Won(m);
    var s2 := Next(s1, max, Step(t));
    assert Steps(s0, max, t, 2) == s2 && s2.threads[t] == Counted(m, s.counter);
    var s3 := Next(s2, max, Step(t));
    assert Steps(s0, max, t, 3) == s3 && s3.threads[t] == Idle;
    assert Steps(s0, max, t, 4) == s3;
  }

  /** Exactly when a release pools its message, in every state of every run: if and only if the pool,
      what is on its way in or out, and everything the collector ever took are together fewer than
      the maximum. */
  lemma ReleasePoolsIff(max: int, events: seq<Event>, t: Tid, m: MsgId)
    requires 0 <= max
    requires var s := Run(max, events); Free(s, t) && m in s.messages && s.messages[m].lifetime % 2 == 0
    ensures var s := Run(max, events);
            m in Steps(Next(s, max, Release(t, m)), max, t, 4).pool <==> |s.pool| + |Between(s)| + s.collected < max
  {
    hide Run, Next, Steps, Free;
    var s := Run(max, events);
    RunKeepsInv(max, events);
    NotPooled(s, m);
    if s.counter < max {
      ReleasePools(s, max, t, m);
    } else {
      ReleaseDrops(s, max, t, m);
    }
  }

  // ---------------------------------------------------------------- what the pool can still hold

  lemma {:induction false} Above(ids: set<nat>) returns (n: nat)
    ensures forall x :: x in ids ==> x < n
  {
    n := 0;
    if ids != {} {
      var x :| x in ids;
      var rest := ids - {x};
      var k := Above(rest);
      n := if x < k then k else x + 1;
      assert forall y :: y in ids ==> y == x || y in rest;
    }
  }

  /** Threads that are putting or getting a message finish with it. */
  lemma {:induction false} Calm(max: int, events: seq<Event>, n: nat) returns (more: seq<Event>)
    requires 0 <= max && |Between(Run(max, events))| == n
    ensures events <= more && Between(Run(max, more)) == {} && Run(max, more).collected == Run(max, events).collected
    decreases n
  {
    hide Run, Inv;
    more := events;
    if n > 0 {
      var s := Run(max, events);
      var t := BusyThread(s);
      var next := Then(max, events, Step(t));
      OneFinishes(s, max, t);
      more := Calm(max, next, n - 1);
    }
  }

  lemma BusyThread(s: State) returns (t: Tid)
    requires |Between(s)| > 0
    ensures t in s.threads && (s.threads[t].Got? || s.threads[t].Raised?)
  {
    var b := Between(s);
    t :| t in b;
  }

  lemma OneFinishes(s: State, max: int, t: Tid)
    requires t in s.threads && (s.threads[t].Got? || s.threads[t].Raised?)
    ensures var s' := Next(s, max, Step(t)); |Between(s')| == |Between(s)| - 1 && s'.collected == s.collected
  {
    var s' := Next(s, max, Step(t));
    BetweenAfter(s, s', t, s'.threads[t]);
  }

  /** One more message made and released. */
  lemma OnePooled(max: int, before: seq<Event>) returns (events: seq<Event>)
    requires 0 <= max && Between(Run(max, before)) == {} && Run(max, before).counter < max
    ensures before <= events
    ensures var s, s' := Run(max, before), Run(max, events);
            Between(s') == {} && s'.counter == s.counter + 1 && s'.collected == s.collected
  {
    hide Run, Next, Steps, Inv;
    var s := Run(max, before);
    var m := Above(s.messages.Keys);
    var t := Above(s.threads.Keys);
    var made := Then(max, before, New(m));
    MadeIsUnused(s, max, m);
    var released := Then(max, made, Release(t, m));
    events := ThenSteps(max, released, t, 4);
    ReleasePools(Run(max, made), max, t, m);
    RunKeepsInv(max, before);
    RunKeepsInv(max, events);
    CountedOut(s, Run(max, events), max);
  }

  lemma CountedOut(s: State, s': State, max: int)
    requires Inv(s, max) && Inv(s', max) && Between(s) == {} && s'.counter == s.counter + 1
    requires |s'.pool| == |s.pool| + 1 && s'.collected == s.collected
    ensures Between(s') == {}
  {
  }

  lemma {:induction false} Fill(max: int, before: seq<Event>) returns (events: seq<Event>)
    requires 0 <= max && Between(Run(max, before)) == {}
    ensures before <= events && Run(max, events).collected == Run(max, before).collected
    ensures Between(Run(max, events)) == {} && Run(max, events).counter >= max
    decreases max - Run(max, before).counter
  {
    hide Run, Inv;
    events := before;
    if Run(max, before).counter < max {
      events := OnePooled(max, before);
      events := Fill(max, events);
    }
  }

  /** The bound on what the pool can hold is reached: every run can go on, without another collection,
      to where the pool holds all that collections have left of its maximum. */
  lemma PoolCanHoldTheRest(max: int, events: seq<Event>) returns (more: seq<Event>)
    requires 0 <= max
    ensures events <= more && Run(max, more).collected == Run(max, events).collected
    ensures |Run(max, more).pool| == max - Run(max, events).collected
  {
    hide Run;
    more := Calm(max, events, |Between(Run(max, events))|);
    more := Fill(max, more);
    RunKeepsInv(max, more);
  }
}

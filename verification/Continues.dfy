/** Several requests for the rest of one body. A client that has a payload set sends Continue, which
    asks for everything from the next set on, while the jobs behind the first request go on by
    themselves. The server remembers the furthest block sent and passes over a Continue for one it
    has sent. */
module Continues {
  import opened Base

  type ChainId = nat

  /** A request that was taken up and the jobs behind it: where it started, the next block to send,
      and whether it goes on. */
  datatype Chain = Chain(start: int, pos: int, live: bool)

  datatype State = State(
    sentThrough: int,
    chains: map<ChainId, Chain>,   // live ones and those that have stopped
    log: seq<int>)                 // blocks sent outside recovery, in order

  const START := State(-1, map[], [])

  datatype Step =
    | Ask(num: int, chain: ChainId, paused: bool)   // everything from `num` on; behind recovery traffic it waits
    | Advance(chain: ChainId)                       // the next payload of a chain
    | Drop(chain: ChainId)                          // the chain's job is replaced, or gives up

  predicate Takes(s: State, count: int, step: Step) {
    step.Ask? && 0 <= step.num < count && step.chain !in s.chains && !(step.num != 0 && step.num <= s.sentThrough)
  }

  predicate Sends(s: State, count: int, step: Step) {
    step.Advance? && step.chain in s.chains && s.chains[step.chain].live && s.chains[step.chain].pos < count
  }

  function Apply(s: State, count: int, step: Step): State {
    match step
    case Ask(num, c, paused) =>
      if !Takes(s, count, step) then s
      else if paused then s.(sentThrough := num, chains := s.chains[c := Chain(num, num, true)])
      else State(num, s.chains[c := Chain(num, num + 1, true)], s.log + [num])
    case Advance(c) =>
      if !Sends(s, count, step) then s
      else
        var n := s.chains[c].pos;
        State(Max(s.sentThrough, n), s.chains[c := s.chains[c].(pos := n + 1)], s.log + [n])
    case Drop(c) =>
      if c in s.chains then s.(chains := s.chains[c := s.chains[c].(live := false)]) else s
  }

  function Run(count: int, steps: seq<Step>): State {
    if steps == [] then START else Apply(Run(count, steps[..|steps| - 1]), count, steps[|steps| - 1])
  }

  // ---------------------------------------------------------------- invariant

  /** The chain has sent the block. */
  predicate Sent(s: State, c: ChainId, n: int) {
    c in s.chains && s.chains[c].start <= n < s.chains[c].pos
  }

  /** What was sent is what the chains have sent. */
  ghost predicate Logged(s: State) {
    forall n :: n in s.log <==> exists c :: Sent(s, c, n)
  }

  /** Nothing was sent, and no chain started, beyond the furthest block; no two started at one. */
  ghost predicate Bounded(s: State) {
    && (forall c :: c in s.chains ==> 0 <= s.chains[c].start <= s.chains[c].pos <= s.sentThrough + 1
                                      && s.chains[c].start <= s.sentThrough)
    && (forall c, d :: c in s.chains && d in s.chains && c != d ==> s.chains[c].start != s.chains[d].start)
  }

  ghost predicate Distinct(log: seq<int>) {
    forall i, j :: 0 <= i < j < |log| ==> log[i] != log[j]
  }

  ghost predicate Disjoint(s: State) {
    forall c, d, n :: c != d && Sent(s, c, n) ==> !Sent(s, d, n)
  }

  ghost predicate Inv(s: State) {
    Logged(s) && Bounded(s) && (Distinct(s.log) <==> Disjoint(s))
  }

  /** The body is asked for from its beginning only once. */
  ghost predicate StartsOnce(s: State, step: Step) {
    step.Ask? && step.num == 0 ==> s.chains == map[]
  }

  /** A chain about to send stands where another one started and has sent that block, or has yet to
      send the first block it was asked for while another one has run past it. */
  ghost predicate Meets(s: State, count: int, step: Step) {
    && Sends(s, count, step)
    && exists d :: d in s.chains && d != step.chain && Met(s.chains[step.chain], s.chains[d])
  }

  predicate Met(c: Chain, d: Chain) {
    (c.pos == d.start < d.pos) || (c.pos == c.start && d.start < c.start < d.pos)
  }

  lemma DistinctNext(log: seq<int>, n: int)
    ensures Distinct(log + [n]) <==> Distinct(log) && n !in log
  {
    var more := log + [n];
    assert forall i :: 0 <= i < |log| ==> more[i] == log[i];
    assert more[|log|] == n;
  }

  /** One chain has sent one more block. */
  lemma OneSent(s: State, s': State, c: ChainId, n: int)
    requires Logged(s) && (Distinct(s.log) <==> Disjoint(s)) && s'.log == s.log + [n]
    requires forall d, k :: Sent(s', d, k) <==> Sent(s, d, k) || (d == c && k == n)
    requires !Sent(s, c, n)
    ensures Logged(s') && (Distinct(s'.log) <==> Disjoint(s'))
  {
    hide Sent, Distinct;
    DistinctNext(s.log, n);
    assert Sent(s', c, n);
    forall k
      ensures k in s'.log <==> exists d :: Sent(s', d, k)
    {
      if exists d :: Sent(s, d, k) {
        var d :| Sent(s, d, k);
        assert Sent(s', d, k);
      }
    }
    if Disjoint(s') {
      forall d, e, k | d != e && Sent(s, d, k)
        ensures !Sent(s, e, k)
      {
        assert Sent(s', d, k);
      }
    }
  }

  /** A request taken up asks for blocks of which none has been sent. */
  lemma TakenIsNew(s: State, count: int, step: Step)
    requires Inv(s) && Takes(s, count, step) && StartsOnce(s, step)
    ensures step.num !in s.log && forall c :: c in s.chains ==> s.chains[c].start < step.num && s.chains[c].pos <= step.num
  {
    hide Distinct, Disjoint;
  }

  lemma AskKeeps(s: State, count: int, step: Step)
    requires Inv(s) && Takes(s, count, step) && StartsOnce(s, step)
    ensures Inv(Apply(s, count, step)) && (Distinct(Apply(s, count, step).log) <==> Distinct(s.log))
  {
    hide Distinct;
    var s', c, n := Apply(s, count, step), step.chain, step.num;
    TakenIsNew(s, count, step);
    DistinctNext(s.log, n);
    assert forall d, k :: Sent(s', d, k) <==> Sent(s, d, k) || (!step.paused && d == c && k == n);
    if step.paused {
      SameSent(s, s');
    } else {
      OneSent(s, s', c, n);
    }
  }

  lemma SameSent(s: State, s': State)
    requires Logged(s) && (Distinct(s.log) <==> Disjoint(s)) && s'.log == s.log
    requires forall d, k :: Sent(s', d, k) <==> Sent(s, d, k)
    ensures Logged(s') && (Distinct(s'.log) <==> Disjoint(s'))
  {
    hide Sent, Distinct;
  }

  lemma AdvanceKeeps(s: State, count: int, step: Step)
    requires Inv(s) && Sends(s, count, step)
    ensures Inv(Apply(s, count, step))
  {
    hide Distinct, Logged, Disjoint;
    var s', c := Apply(s, count, step), step.chain;
    var n := s.chains[c].pos;
    assert forall d, k :: Sent(s', d, k) <==> Sent(s, d, k) || (d == c && k == n);
    OneSent(s, s', c, n);
  }

  /** As long as nothing has been sent twice, the next block has been sent exactly when two chains
      meet. */
  lemma RepeatsWhereTheyMeet(s: State, count: int, step: Step)
    requires Inv(s) && Sends(s, count, step) && Distinct(s.log)
    ensures s.chains[step.chain].pos in s.log <==> Meets(s, count, step)
  {
    hide Distinct;
    var c := step.chain;
    var n := s.chains[c].pos;
    if n in s.log {
      var d :| Sent(s, d, n);
      assert Sent(s, c, n - 1) ==> !Sent(s, d, n - 1);
      assert d in s.chains && d != c && Met(s.chains[c], s.chains[d]);
    }
    if Meets(s, count, step) {
      var d :| d in s.chains && d != c && Met(s.chains[c], s.chains[d]);
      assert Sent(s, d, n);
    }
  }

  lemma StepRepeats(s: State, count: int, step: Step)
    requires Inv(s) && StartsOnce(s, step)
    ensures Inv(Apply(s, count, step))
    ensures Distinct(Apply(s, count, step).log) <==> Distinct(s.log) && !Meets(s, count, step)
  {
    hide Distinct, Meets, Logged, Disjoint;
    NoMeeting(s, count, step);
    if Takes(s, count, step) {
      AskKeeps(s, count, step);
    } else if Sends(s, count, step) {
      AdvanceKeeps(s, count, step);
      DistinctNext(s.log, s.chains[step.chain].pos);
      if Distinct(s.log) {
        RepeatsWhereTheyMeet(s, count, step);
      }
    } else if step.Drop? {
      assert forall d, k :: Sent(Apply(s, count, step), d, k) <==> Sent(s, d, k);
      SameSent(s, Apply(s, count, step));
    }
  }

  lemma NoMeeting(s: State, count: int, step: Step)
    ensures Meets(s, count, step) ==> Sends(s, count, step)
  {
  }

  // ---------------------------------------------------------------- whole runs

  ghost predicate OneStart(steps: seq<Step>) {
    forall i :: 0 < i < |steps| ==> !(steps[i].Ask? && steps[i].num == 0)
  }

  ghost predicate MeetsAt(count: int, steps: seq<Step>, i: nat)
    requires i < |steps|
  {
    Meets(Run(count, steps[..i]), count, steps[i])
  }

  lemma MetBefore(count: int, steps: seq<Step>, i: nat)
    requires i < |steps| - 1
    ensures MeetsAt(count, steps[..|steps| - 1], i) <==> MeetsAt(count, steps, i)
  {
    hide Meets, Run;
    assert steps[..|steps| - 1][..i] == steps[..i];
  }

  lemma MetLast(count: int, steps: seq<Step>)
    requires steps != []
    ensures MeetsAt(count, steps, |steps| - 1) <==> Meets(Run(count, steps[..|steps| - 1]), count, steps[|steps| - 1])
  {
    hide Meets, Run;
  }

  /** Exactly when a block is sent twice outside recovery, for a body asked for from its beginning
      once and continued in any way: if and only if a chain of jobs runs on to where a later request
      has taken over. */
  lemma {:induction false} SentOnceIff(count: int, steps: seq<Step>)
    requires OneStart(steps)
    ensures Inv(Run(count, steps))
    ensures Distinct(Run(count, steps).log) <==> forall i :: 0 <= i < |steps| ==> !MeetsAt(count, steps, i)
    decreases |steps|
  {
    hide Apply, Meets, Inv, Distinct, MeetsAt;
    if steps == [] {
      NothingSent();
    } else {
      var init, n := steps[..|steps| - 1], |steps| - 1;
      SentOnceIff(count, init);
      OnceOnly(count, steps);
      StepRepeats(Run(count, init), count, steps[n]);
      MetLast(count, steps);
      forall i | 0 <= i < n
        ensures MeetsAt(count, init, i) <==> MeetsAt(count, steps, i)
      {
        MetBefore(count, steps, i);
      }
      if !Distinct(Run(count, init).log) {
        var i :| 0 <= i < n && MeetsAt(count, init, i);
        assert MeetsAt(count, steps, i);
      }
    }
  }

  lemma NothingSent()
    ensures Inv(START) && Distinct(START.log)
  {
  }

  lemma OnceOnly(count: int, steps: seq<Step>)
    requires steps != [] && OneStart(steps)
    ensures StartsOnce(Run(count, steps[..|steps| - 1]), steps[|steps| - 1])
  {
  }

  /** In particular a Continue never makes the server send a block again by itself. */
  lemma ContinueIsNew(count: int, steps: seq<Step>, step: Step)
    requires OneStart(steps + [step]) && Takes(Run(count, steps), count, step)
    ensures step.num !in Run(count, steps).log && forall n :: n in Run(count, steps).log ==> n < step.num
  {
    hide Run, Distinct, Disjoint;
    assert OneStart(steps) by {
      assert forall i :: 0 <= i < |steps| ==> (steps + [step])[i] == steps[i];
    }
    SentOnceIff(count, steps);
    var s := Run(count, steps);
    assert (steps + [step])[..|steps|] == steps && (steps + [step])[|steps|] == step;
    OnceOnly(count, steps + [step]);
    TakenIsNew(s, count, step);
    forall n | n in s.log
      ensures n < step.num
    {
      var c :| Sent(s, c, n);
    }
  }

  /** It does happen: a Continue for the second payload set comes while the jobs behind the first
      request go on, and its first block is sent by both. */
  lemma BlocksCanBeSentTwice(count: int, second: nat) returns (steps: seq<Step>)
    requires 1 <= second < count
    ensures OneStart(steps) && !Distinct(Run(count, steps).log)
  {
    hide Run;
    steps := Chase(count, second);
    var ask, next := Ask(second, 1, false), Advance(0);
    var s := Run(count, steps);
    var more := steps + [ask];
    RunNext(count, steps, ask);
    RunNext(count, more, next);
    steps := more + [next];
    var s' := Run(count, more);
    assert s'.log[|s'.log| - 1] == second && Run(count, steps).log == s'.log + [second];
    var log := Run(count, steps).log;
    assert log[|log| - 2] == log[|log| - 1];
  }

  lemma RunNext(count: int, steps: seq<Step>, step: Step)
    ensures Run(count, steps + [step]) == Apply(Run(count, steps), count, step)
  {
    assert (steps + [step])[..|steps|] == steps;
  }

  /** The first request and the jobs behind it, up to some block. */
  lemma {:induction false} Chase(count: int, n: nat) returns (steps: seq<Step>)
    requires 1 <= n <= count
    ensures OneStart(steps) && Run(count, steps).sentThrough == n - 1
    ensures Run(count, steps).chains == map[0 := Chain(0, n, true)] && |steps| > 0
  {
    if n == 1 {
      steps := [Ask(0, 0, false)];
      assert steps[..0] == [];
    } else {
      var before := Chase(count, n - 1);
      steps := before + [Advance(0)];
      RunNext(count, before, Advance(0));
      assert Run(count, before).chains[0 := Chain(0, n, true)] == map[0 := Chain(0, n, true)];
    }
  }
}

/** The two retention counters at the level of single atomic operations: an engine's own and the
    process-wide one. Any number of reservations, on any number of engines, are in progress
    at once; every load, compare-and-swap and add is a step of its own. */
module Counters {
  import opened Base
  import opened Sums

  type EngineId = nat
  type OpId = nat

  /** Where one reservation of `n` units has got to. */
  datatype Phase =
    | WantEngine                  // about to load the engine counter
    | SawEngine(seen: int)        // loaded it, about to compare and swap
    | WantProcess                 // engine counter raised
    | SawProcess(seen: int)
    | Undoing                     // process full, engine counter still raised
    | Holding                     // both raised
    | HalfReleased                // engine counter lowered again
    | Refused                     // ended without a reservation
    | Released

  datatype Op = Op(engine: EngineId, n: int, phase: Phase) {
    /** What this reservation has added to its engine's counter. */
    function EngineShare(): int {
      if phase.WantProcess? || phase.SawProcess? || phase.Undoing? || phase.Holding? then n else 0
    }

    function ProcessShare(): int {
      if phase.Holding? || phase.HalfReleased? then n else 0
    }
  }

  datatype State = State(ops: map<OpId, Op>, engines: map<EngineId, int>, process: int)

  datatype Limits = Limits(engine: int, process: int)

  /** `qReserve` and the releases, one atomic operation at a time. A step that is not enabled
      leaves the state alone. */
  function Step(s: State, id: OpId, l: Limits): (s': State)
  {
    if id !in s.ops || s.ops[id].engine !in s.engines then s
    else
      var op := s.ops[id];
      var e := s.engines[op.engine];
      match op.phase
      case WantEngine =>
        if op.n < 0 || op.n > l.engine - e then Move(s, id, Refused) else Move(s, id, SawEngine(e))
      case SawEngine(seen) =>
        if e == seen then Move(s, id, WantProcess).(engines := s.engines[op.engine := seen + op.n])
        else Move(s, id, WantEngine)
      case WantProcess =>
        if op.n > l.process - s.process then Move(s, id, Undoing) else Move(s, id, SawProcess(s.process))
      case SawProcess(seen) =>
        if s.process == seen then Move(s, id, Holding).(process := seen + op.n)
        else Move(s, id, WantProcess)
      case Undoing => Move(s, id, Refused).(engines := s.engines[op.engine := e - op.n])
      case Holding => Move(s, id, HalfReleased).(engines := s.engines[op.engine := e - op.n])
      case HalfReleased => Move(s, id, Released).(process := s.process - op.n)
      case Refused => s
      case Released => s
  }

  function Move(s: State, id: OpId, phase: Phase): State
    requires id in s.ops
  {
    s.(ops := s.ops[id := s.ops[id].(phase := phase)])
  }

  /** A new reservation attempt may appear at any time. */
  function Begin(s: State, id: OpId, engine: EngineId, n: int): State {
    if id in s.ops || engine !in s.engines then s
    else s.(ops := s.ops[id := Op(engine, n, WantEngine)])
  }

  ghost function EngineShares(ops: map<OpId, Op>, e: EngineId): map<OpId, int> {
    map id | id in ops :: if ops[id].engine == e then ops[id].EngineShare() else 0
  }

  ghost function ProcessShares(ops: map<OpId, Op>): map<OpId, int> {
    map id | id in ops :: ops[id].ProcessShare()
  }

  /** Each counter is exactly what the reservations in progress have added to it, and a value seen
      before a compare-and-swap left room for the reservation. */
  ghost predicate Inv(s: State, l: Limits) {
    && (forall e :: e in s.engines ==> s.engines[e] == Sum(EngineShares(s.ops, e)) && s.engines[e] <= l.engine)
    && s.process == Sum(ProcessShares(s.ops)) && s.process <= l.process
    && forall id :: id in s.ops ==> OpInv(s.ops[id], l)
  }

  predicate OpInv(op: Op, l: Limits) {
    && (op.phase != WantEngine && op.phase != Refused ==> 0 <= op.n)
    && (op.phase.SawEngine? ==> op.n <= l.engine - op.phase.seen)
    && (op.phase.SawProcess? ==> op.n <= l.process - op.phase.seen)
  }

  lemma SharesMove(s: State, id: OpId, op: Op, e: EngineId)
    ensures EngineShares(s.ops[id := op], e)
         == EngineShares(s.ops, e)[id := if op.engine == e then op.EngineShare() else 0]
    ensures ProcessShares(s.ops[id := op]) == ProcessShares(s.ops)[id := op.ProcessShare()]
  {
  }

  /** How one changed reservation changes the totals. */
  lemma TotalsMove(s: State, id: OpId, op: Op, e: EngineId)
    ensures Sum(EngineShares(s.ops[id := op], e)) == Sum(EngineShares(s.ops, e))
              - (if id in s.ops && s.ops[id].engine == e then s.ops[id].EngineShare() else 0)
              + (if op.engine == e then op.EngineShare() else 0)
    ensures Sum(ProcessShares(s.ops[id := op])) == Sum(ProcessShares(s.ops))
              - (if id in s.ops then s.ops[id].ProcessShare() else 0) + op.ProcessShare()
  {
    SharesMove(s, id, op, e);
    SumPut(EngineShares(s.ops, e), id, if op.engine == e then op.EngineShare() else 0);
    SumPut(ProcessShares(s.ops), id, op.ProcessShare());
  }

  /** A step moves one reservation, and moves its counters by exactly what that changes. */
  ghost predicate Moves(s: State, s': State, id: OpId, l: Limits)
  {
    && id in s.ops && s.ops[id].engine in s.engines
    && exists op ::
         && s'.ops == s.ops[id := op] && op.engine == s.ops[id].engine && OpInv(op, l)
         && s'.engines == s.engines[op.engine := s.engines[op.engine] + op.EngineShare() - s.ops[id].EngineShare()]
         && s'.process == s.process + op.ProcessShare() - s.ops[id].ProcessShare()
         && s'.engines[op.engine] <= l.engine && s'.process <= l.process
  }

  lemma StepMoves(s: State, id: OpId, l: Limits)
    requires id in s.ops && s.ops[id].engine in s.engines && OpInv(s.ops[id], l)
    requires s.engines[s.ops[id].engine] <= l.engine && s.process <= l.process
    ensures Moves(s, Step(s, id, l), id, l)
  {
    var op, s' := s.ops[id], Step(s, id, l);
    var op' := s'.ops[id];
    assert s'.ops == s.ops[id := op'];
    assert s'.engines == s.engines[op'.engine := s.engines[op'.engine] + op'.EngineShare() - op.EngineShare()];
  }

  lemma MoveKeepsInv(s: State, s': State, id: OpId, l: Limits)
    requires Inv(s, l) && Moves(s, s', id, l)
    ensures Inv(s', l)
  {
    hide Op.EngineShare, Op.ProcessShare, OpInv, EngineShares, ProcessShares;
    var op :|
      && s'.ops == s.ops[id := op] && op.engine == s.ops[id].engine && OpInv(op, l)
      && s'.engines == s.engines[op.engine := s.engines[op.engine] + op.EngineShare() - s.ops[id].EngineShare()]
      && s'.process == s.process + op.ProcessShare() - s.ops[id].ProcessShare()
      && s'.engines[op.engine] <= l.engine && s'.process <= l.process;
    forall e | e in s'.engines
      ensures s'.engines[e] == Sum(EngineShares(s'.ops, e)) && s'.engines[e] <= l.engine
    {
      TotalsMove(s, id, op, e);
    }
    TotalsMove(s, id, op, op.engine);
  }

  lemma StepKeepsInv(s: State, id: OpId, l: Limits)
    requires Inv(s, l)
    ensures Inv(Step(s, id, l), l)
  {
    hide Moves;
    if id in s.ops && s.ops[id].engine in s.engines {
      StepMoves(s, id, l);
      hide Step;
      MoveKeepsInv(s, Step(s, id, l), id, l);
    }
  }

  lemma BeginKeepsInv(s: State, id: OpId, engine: EngineId, n: int, l: Limits)
    requires Inv(s, l)
    ensures Inv(Begin(s, id, engine, n), l)
  {
    var s' := Begin(s, id, engine, n);
    if s' != s {
      forall e | e in s'.engines
        ensures s'.engines[e] == Sum(EngineShares(s'.ops, e))
      {
        TotalsMove(s, id, s'.ops[id], e);
      }
      TotalsMove(s, id, s'.ops[id], engine);
    }
  }

  datatype Event = Began(id: OpId, engine: EngineId, n: int) | Stepped(id: OpId)

  function Run(s: State, events: seq<Event>, l: Limits): State
    decreases |events|
  {
    if events == [] then s
    else
      var before := Run(s, events[..|events| - 1], l);
      match events[|events| - 1]
      case Began(id, e, n) => Begin(before, id, e, n)
      case Stepped(id) => Step(before, id, l)
  }

  ghost predicate Fresh(s: State) {
    s.ops == map[] && s.process == 0 && forall e :: e in s.engines ==> s.engines[e] == 0
  }

  /** In every interleaving of any reservations and releases, after every single atomic operation,
      no counter exceeds its limit or falls below zero. */
  lemma {:induction false} RunKeepsInv(s: State, events: seq<Event>, l: Limits)
    requires Fresh(s) && 0 <= l.engine && 0 <= l.process
    ensures Inv(Run(s, events, l), l)
    decreases |events|
  {
    if events == [] {
      forall e | e in s.engines
        ensures Sum(EngineShares(s.ops, e)) == 0
      {
        SumEmpty(EngineShares(s.ops, e));
      }
      SumEmpty(ProcessShares(s.ops));
    } else {
      RunKeepsInv(s, events[..|events| - 1], l);
      var before := Run(s, events[..|events| - 1], l);
      match events[|events| - 1]
      case Began(id, e, n) => BeginKeepsInv(before, id, e, n, l);
      case Stepped(id) => StepKeepsInv(before, id, l);
    }
  }

  lemma NeverBelowZero(s: State, l: Limits, e: EngineId)
    requires Inv(s, l) && e in s.engines
    ensures 0 <= s.engines[e] && 0 <= s.process
  {
    SumNonNegative(EngineShares(s.ops, e));
    SumNonNegative(ProcessShares(s.ops));
  }

  ghost function HeldOn(ops: map<OpId, Op>, e: EngineId): map<OpId, int> {
    map id | id in ops :: if ops[id].engine == e && ops[id].phase.Holding? then ops[id].n else 0
  }

  ghost function Held(ops: map<OpId, Op>): map<OpId, int> {
    map id | id in ops :: if ops[id].phase.Holding? then ops[id].n else 0
  }

  lemma SharesAreHeld(ops: map<OpId, Op>, e: EngineId)
    requires forall id :: id in ops ==> ops[id].phase in {Holding, Refused, Released}
    ensures EngineShares(ops, e) == HeldOn(ops, e) && ProcessShares(ops) == Held(ops)
  {
  }

  /** Once every attempt has ended, each counter is the total still held; with nothing held, all
      of them are back at zero. */
  lemma AllEndedIsExact(s: State, l: Limits, e: EngineId)
    requires Inv(s, l) && e in s.engines
    requires forall id :: id in s.ops ==> s.ops[id].phase in {Holding, Refused, Released}
    ensures s.engines[e] == Sum(HeldOn(s.ops, e)) && s.process == Sum(Held(s.ops))
    ensures (forall id :: id in s.ops ==> !s.ops[id].phase.Holding?) ==> s.engines[e] == 0 && s.process == 0
  {
    SharesAreHeld(s.ops, e);
    if forall id :: id in s.ops ==> !s.ops[id].phase.Holding? {
      SumZeroes(HeldOn(s.ops, e));
      SumZeroes(Held(s.ops));
    }
  }

  function Steps(s: State, id: OpId, l: Limits, k: nat): State {
    if k == 0 then s else Step(Steps(s, id, l, k - 1), id, l)
  }

  /** Left alone, an attempt ends within four operations: with both counters raised if both have
      room for it, and otherwise with both as they were. */
  lemma AloneIsExact(s: State, id: OpId, engine: EngineId, n: int, l: Limits)
    requires id !in s.ops && engine in s.engines
    ensures var s' := Steps(Begin(s, id, engine, n), id, l, 4);
            && id in s'.ops
            && (if 0 <= n <= l.engine - s.engines[engine] && n <= l.process - s.process
                then s'.ops[id].phase == Holding && s'.process == s.process + n
                     && s'.engines == s.engines[engine := s.engines[engine] + n]
                else s'.ops[id].phase == Refused && s'.process == s.process && s'.engines == s.engines)
  {
    var s0 := Begin(s, id, engine, n);
    var s1 := Step(s0, id, l);
    var s2 := Step(s1, id, l);
    var s3 := Step(s2, id, l);
    assert Steps(s0, id, l, 1) == s1;
    assert Steps(s0, id, l, 2) == s2;
    assert Steps(s0, id, l, 3) == s3;
    assert s.engines[engine := s.engines[engine] + n][engine := s.engines[engine]] == s.engines;
  }
}

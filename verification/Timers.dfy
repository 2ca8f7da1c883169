/** The receive timers of uploads over whole runs of the engine: no record ever counts more
    retries than the configuration allows, so every backoff it computes fits in 64 bits. */
module Timers {
  import opened Base
  import opened Engine
  import Config

  ghost predicate Patient(e: State, limit: int) {
    forall k :: k in e.uploads ==> 0 <= e.uploads[k].retries <= limit
  }

  /** Timers fire under the engine's own configuration; anything else may happen at any time. */
  predicate Configured(s: Step, limit: int) {
    s.Timer? ==> s.maxRetransmit == limit
  }

  lemma {:induction false} SweepStaysPatient(e: State, order: seq<Key>, cutoff: Option<int>, limit: int)
    requires Patient(e, limit)
    ensures Patient(SweepUploads(e, order, cutoff), limit)
    decreases |order|
  {
    hide DropUpload;
    if order != [] {
      SweepStaysPatient(e, order[..|order| - 1], cutoff, limit);
    }
  }

  lemma AdmitStaysPatient(e: State, key: Key, p: Params, now: int, lifetime: int, maxBody: int, maxEntries: int,
                          granted: bool, limit: nat)
    requires Patient(e, limit)
    ensures Patient(AdmitUpload(e, key, p, now, lifetime, maxBody, maxEntries, granted).0, limit)
  {
    hide AdmitUpload, DropUpload, PutUpload, TrySlot;
    AdmitCases(e, key, p, now, lifetime, maxBody, maxEntries, granted);
  }

  lemma AddStaysPatient(e: State, key: Key, id: Id, p: Params, payload: seq<byte>, now: int, granted: bool, limit: nat)
    requires Patient(e, limit)
    ensures Patient(AddPayload(e, key, id, p, payload, now, granted).0, limit)
  {
    hide DropUpload, PutUpload, TryBytes, FreeBytes, IsFirstGap;
  }

  lemma StepStaysPatient(e: State, s: Step, limit: nat)
    requires Patient(e, limit) && Configured(s, limit)
    ensures Patient(Apply(e, s), limit)
  {
    hide AdmitUpload, AddPayload, SweepUploads, DropUpload, PutUpload, ReserveSnapshot, AbortSnapshot, StoreSnapshot,
         InvalidateTerminal, ExpireOutgoing, CancelObservation, RegisterObservation, SweepOutgoing, CloseOutgoingIn,
         OpenReceiver, FeedReceiver, ResetReceiver, CloseReceiver, ClaimUpload, StoreResponse, StoreFinalError, UploadTimer;
    match s
    case Admit(key, p, now, lifetime, maxBody, maxEntries, granted) =>
      AdmitStaysPatient(e, key, p, now, lifetime, maxBody, maxEntries, granted, limit);
    case Add(key, id, p, payload, now, granted) => AddStaysPatient(e, key, id, p, payload, now, granted, limit);
    case ExpireUploads(order, now) => SweepStaysPatient(e, order, Some(now), limit);
    case CloseUploads(order) => SweepStaysPatient(e, order, None, limit);
    case ClaimIt(_, _, _, _) => OneStaysPatient(e, s, limit);
    case Store(_, _, _) => OneStaysPatient(e, s, limit);
    case FinalError(_, _, _, _) => OneStaysPatient(e, s, limit);
    case Timer(_, _, _, _) => OneStaysPatient(e, s, limit);
    case _ =>
  }

  lemma OneStaysPatient(e: State, s: Step, limit: nat)
    requires Patient(e, limit) && Configured(s, limit) && (s.ClaimIt? || s.Store? || s.FinalError? || s.Timer?)
    ensures Patient(Apply(e, s), limit)
  {
    hide DropUpload, PutUpload, FreeBytes;
  }

  ghost function After(e: State, steps: seq<Step>): State
    decreases |steps|
  {
    if steps == [] then e else Apply(After(e, steps[..|steps| - 1]), steps[|steps| - 1])
  }

  /** In every state any run of the engine reaches, every upload's deadline is a 64-bit duration
      away from its last progress. */
  lemma {:induction false} UploadBackoffFits(c: Config.Params, processBytes: int, processSlots: int, steps: seq<Step>)
    requires Config.Resolved(c)
    requires forall i :: 0 <= i < |steps| ==> Configured(steps[i], c.nonMaxRetransmit)
    ensures var e := After(Empty(processBytes, processSlots), steps);
            && Patient(e, c.nonMaxRetransmit)
            && forall k :: k in e.uploads ==> Config.Fits(Config.Shifted(c.nonReceiveTimeout, e.uploads[k].retries))
    decreases |steps|
  {
    hide Apply, Config.Resolve, Config.Resolved;
    Config.ResolveIsExact(c);
    var e := After(Empty(processBytes, processSlots), steps);
    if steps != [] {
      UploadBackoffFits(c, processBytes, processSlots, steps[..|steps| - 1]);
      StepStaysPatient(After(Empty(processBytes, processSlots), steps[..|steps| - 1]), steps[|steps| - 1], c.nonMaxRetransmit);
    }
    forall k | k in e.uploads
      ensures Config.Fits(Config.Shifted(c.nonReceiveTimeout, e.uploads[k].retries))
    {
      Config.BackoffFits(c, e.uploads[k].retries);
    }
  }
}

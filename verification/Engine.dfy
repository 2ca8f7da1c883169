/** The retained state of one Q-Block engine and everything that changes it. Each function below
    is one stretch of code between taking and releasing a lock, so a run of the engine is any
    sequence of these steps. Every retained body or registration is paid for from two
    counters, the engine's and the process's, and is paid back on whichever of many paths
    removes it. */
module Engine {
  import opened Base
  import opened Transfer
  import opened Sums

  const ENGINE_BYTES: int := 0x200_0000    // 32 MiB
  const PROCESS_BYTES: int := 0x1000_0000  // 256 MiB
  const ENGINE_SLOTS: int := 128
  const PROCESS_SLOTS: int := 8192
  const MAX_BODY: int := 0x100_0000        // 16 MiB
  const MAX_TRACKED: int := 65536
  const MAX_ENTRIES: int := 4096
  const MAX_OBSERVATIONS: int := 128

  type Key = nat
  type Id = nat

  // ---------------------------------------------------------------- the two pairs of counters

  datatype Ledger = Ledger(bytes: int, slots: int, processBytes: int, processSlots: int)

  /** Reserving fits both limits or changes nothing. `granted` is false when a racing
      reservation made this one fail although it would fit. */
  function TryBytes(l: Ledger, n: int, granted: bool): (r: Option<Ledger>) {
    if granted && 0 <= n <= ENGINE_BYTES - l.bytes && n <= PROCESS_BYTES - l.processBytes
    then Some(FreeBytes(l, -n)) else None
  }

  function TrySlot(l: Ledger, granted: bool): (r: Option<Ledger>) {
    if granted && 1 <= ENGINE_SLOTS - l.slots && 1 <= PROCESS_SLOTS - l.processSlots
    then Some(l.(slots := l.slots + 1, processSlots := l.processSlots + 1)) else None
  }

  function FreeBytes(l: Ledger, n: int): Ledger {
    l.(bytes := l.bytes - n, processBytes := l.processBytes - n)
  }

  function FreeSlot(l: Ledger): Ledger {
    l.(slots := l.slots - 1, processSlots := l.processSlots - 1)
  }

  // ---------------------------------------------------------------- state

  /** A message as far as replaying it matters. */
  datatype Reply = Reply(token: seq<byte>, content: seq<byte>)

  /** One upload being received, or remembered after completion. `id` stands for the identity of
      the record; `assembly` says whether the blocks are still retained. */
  datatype Record = Upload(id: Id, szx: nat, size: int, mode: int, blocks: Blocks, assembly: bool,
                           expires: int, updated: int, retries: int, completed: bool, bytes: int,
                           claimant: Option<(int, seq<byte>)>, response: Option<Reply>)
  {
    function Shape(): Layout {
      Layout(SzxSize(szx), size)
    }
  }

  /** The constructor of the assembly admits only these sizes. */
  type Upload = u: Record | u.szx <= MAX_SZX && 0 <= u.size
    witness Record.Upload(0, 0, 0, 0, map[], true, 0, 0, 0, false, 0, None, None)

  /** A response body kept for block-wise delivery. */
  datatype Outgoing = Outgoing(id: Id, size: int, expires: int, terminalFor: Option<Key>)

  datatype Observation = Observation(id: Id, key: Key)

  datatype State = State(
    ledger: Ledger,
    uploads: map<Key, Upload>, uploadBytes: int, uploadsClosed: bool,
    outgoing: map<Key, Outgoing>, outgoingBytes: int, outgoingClosed: bool,
    observations: map<Key, Observation>,
    receivers: map<Id, int>,     // bytes each client receiver retains
    snapshots: map<Id, int>,     // bodies copied but not yet stored
    nextId: Id)

  function Empty(processBytes: int, processSlots: int): State {
    State(Ledger(0, 0, processBytes, processSlots), map[], 0, false, map[], 0, false, map[], map[], map[], 0)
  }

  /** Nothing outside the uploads reaches into them, and identities are never reused. */
  predicate UploadsAside(e: State, e': State) {
    e'.uploads == e.uploads && e'.uploadsClosed == e.uploadsClosed && e.nextId <= e'.nextId
  }

  // ---------------------------------------------------------------- elementary changes

  function DropUpload(e: State, key: Key): (e': State)
    requires key in e.uploads
    ensures e'.uploads == e.uploads - {key} && e'.nextId == e.nextId && e'.uploadsClosed == e.uploadsClosed
    ensures e'.outgoing == e.outgoing
  {
    var n := e.uploads[key].bytes;
    e.(uploads := e.uploads - {key}, uploadBytes := e.uploadBytes - n, ledger := FreeSlot(FreeBytes(e.ledger, n)))
  }

  function DropOutgoing(e: State, key: Key): (e': State)
    ensures UploadsAside(e, e')
    requires key in e.outgoing
  {
    var n := e.outgoing[key].size;
    e.(outgoing := e.outgoing - {key}, outgoingBytes := e.outgoingBytes - n, ledger := FreeSlot(FreeBytes(e.ledger, n)))
  }

  function DropIfOutgoing(e: State, key: Key): (e': State)
    ensures UploadsAside(e, e')
    ensures e'.snapshots == e.snapshots && e'.observations == e.observations && e'.outgoingClosed == e.outgoingClosed
    ensures key !in e'.outgoing
  {
    if key in e.outgoing then DropOutgoing(e, key) else e
  }

  function DropObservation(e: State, key: Key): (e': State)
    ensures UploadsAside(e, e')
    requires key in e.observations
  {
    e.(observations := e.observations - {key}, ledger := FreeSlot(e.ledger))
  }

  function DropSnapshot(e: State, id: Id): (e': State)
    ensures UploadsAside(e, e')
    requires id in e.snapshots
  {
    e.(snapshots := e.snapshots - {id}, ledger := FreeSlot(FreeBytes(e.ledger, e.snapshots[id])))
  }

  /** Changes an upload record and the bytes it is charged for; `ledger` has been charged. */
  function PutUpload(e: State, key: Key, u: Upload, l: Ledger): (e': State)
    ensures e'.uploads == e.uploads[key := u] && e'.nextId == e.nextId && e'.uploadsClosed == e.uploadsClosed
    ensures e'.ledger == l && e'.outgoing == e.outgoing
  {
    var was := if key in e.uploads then e.uploads[key].bytes else 0;
    e.(uploads := e.uploads[key := u], uploadBytes := e.uploadBytes + u.bytes - was, ledger := l)
  }

  // ---------------------------------------------------------------- uploads (Q-Block1)

  datatype UploadError = Canceled | CacheFull | Unfit(cause: QError) | Mismatch

  datatype Params = Params(num: int, more: bool, szx: nat, size: int, mode: int)

  datatype Admitted = Rejected(error: UploadError) | Replay(response: Option<Reply>) | Proceed(id: Id)

  function Admissible(szx: nat, size: int, maxBody: int): (err: Option<QError>) {
    if szx > MAX_SZX || size < 0 then Some(InvalidSize)
    else if maxBody <= 0 || size > maxBody then Some(TooLarge)
    else if Layout(SzxSize(szx), size).Count() > MAX_TRACKED then Some(TooLarge)
    else None
  }

  /** An expired record makes way before anything else is looked at. */
  function MakeWay(e: State, key: Key, now: int): State {
    if !e.uploadsClosed && key in e.uploads && e.uploads[key].expires <= now then DropUpload(e, key) else e
  }

  function Opened(id: Id, p: Params, expires: int): Record {
    Record.Upload(id, p.szx, p.size, p.mode, map[], true, expires, 0, 0, false, 0, None, None)
  }

  /** First critical section of a request: find, replace when expired, or create the record. */
  function AdmitUpload(e: State, key: Key, p: Params, now: int, lifetime: int, maxBody: int, maxEntries: int,
                       granted: bool): (r: (State, Admitted))
  {
    if e.uploadsClosed then (e, Rejected(Canceled))
    else
      var e1 := MakeWay(e, key, now);
      if key !in e1.uploads then
        if |e1.uploads| >= MAX_ENTRIES || (maxEntries > 0 && |e1.uploads| >= maxEntries) then (e1, Rejected(CacheFull))
        else if Admissible(p.szx, p.size, maxBody).Some? then (e1, Rejected(Unfit(Admissible(p.szx, p.size, maxBody).value)))
        else
          match TrySlot(e1.ledger, granted)
          case None => (e1, Rejected(CacheFull))
          case Some(l) =>
            (PutUpload(e1, key, Opened(e1.nextId, p, now + lifetime), l).(nextId := e1.nextId + 1), Proceed(e1.nextId))
      else
        var u := e1.uploads[key];
        if u.size != p.size || u.szx != p.szx || u.mode != p.mode then (e1, Rejected(Mismatch))
        else if u.completed then (e1, Replay(u.response))
        else (PutUpload(e1, key, u.(expires := now + lifetime), e1.ledger), Proceed(u.id))
  }

  lemma AdmissibleIsUpload(szx: nat, size: int, maxBody: int)
    ensures Admissible(szx, size, maxBody).None? ==> szx <= MAX_SZX && 0 <= size
  {
  }

  /** What admission comes to, once an expired record has made way: nothing more, an upload renewed,
      or one opened. */
  lemma AdmitCases(e: State, key: Key, p: Params, now: int, lifetime: int, maxBody: int, maxEntries: int, granted: bool)
    ensures var (e', r) := AdmitUpload(e, key, p, now, lifetime, maxBody, maxEntries, granted);
            var e1 := MakeWay(e, key, now);
            match r
            case Proceed(id) =>
              !e.uploadsClosed &&
              if key in e1.uploads then
                && id == e1.uploads[key].id && !e1.uploads[key].completed
                && e' == PutUpload(e1, key, e1.uploads[key].(expires := now + lifetime), e1.ledger)
              else
                && id == e1.nextId && p.szx <= MAX_SZX && 0 <= p.size && TrySlot(e1.ledger, granted).Some?
                && e' == PutUpload(e1, key, Opened(id, p, now + lifetime), TrySlot(e1.ledger, granted).value).(nextId := id + 1)
            case Replay(response) =>
              e' == e1 && key in e1.uploads && e1.uploads[key].completed && e1.uploads[key].response == response
            case Rejected(_) => e' == e1
  {
    hide PutUpload, DropUpload, Admissible, TrySlot, Opened;
    AdmissibleIsUpload(p.szx, p.size, maxBody);
  }

  datatype Added = Refused(error: UploadError) | Replayed(response: Option<Reply>) | Waiting(duplicate: bool) | Complete

  ghost predicate IsFirstGap(u: Upload, num: int) {
    num !in u.blocks && 0 <= num && forall i :: 0 <= i < num ==> i in u.blocks
  }

  /** Second critical section: store the payload. A payload that does not fit loses the transfer. */
  ghost function AddPayload(e: State, key: Key, id: Id, p: Params, payload: seq<byte>, now: int, granted: bool)
    : (r: (State, Added))
  {
    if !e.uploadsClosed && key in e.uploads && e.uploads[key].id == id && e.uploads[key].completed then
      (e, Replayed(e.uploads[key].response))
    else if e.uploadsClosed || key !in e.uploads || e.uploads[key].id != id || !e.uploads[key].assembly then
      (e, Refused(Canceled))
    else
      var u := e.uploads[key];
      match TryBytes(e.ledger, |payload|, granted)
      case None => (e, Refused(Unfit(TooLarge)))
      case Some(l) =>
        var charged := u.(bytes := u.bytes + |payload|);
        var e1 := PutUpload(e, key, charged, l);
        if p.num in u.blocks then
          (PutUpload(e1, key, u, FreeBytes(e1.ledger, |payload|)),
           if AllStored(u.Shape(), u.blocks) then Complete else Waiting(true))
        else if !u.Shape().Fits(p.num, p.more, payload) then
          (DropUpload(PutUpload(e1, key, u, FreeBytes(e1.ledger, |payload|)), key),
           Refused(Unfit(if 0 <= p.num < u.Shape().Count() then InvalidSize else InvalidNum)))
        else
          var kept := charged.(blocks := u.blocks[p.num := payload], updated := now,
                               retries := if IsFirstGap(u, p.num) then 0 else u.retries);
          (PutUpload(e1, key, kept, e1.ledger),
           if AllStored(u.Shape(), kept.blocks) then Complete else Waiting(false))
  }

  datatype Claim = Lost | AlreadyDone | Won(blocks: Blocks)

  /** Third critical section: exactly one request takes the completed body to the application. */
  function ClaimUpload(e: State, key: Key, id: Id, sequence: int, token: seq<byte>): (r: (State, Claim)) {
    if key !in e.uploads || e.uploads[key].id != id then (e, Lost)
    else
      var u := e.uploads[key];
      if u.completed then (e, AlreadyDone)
      else (PutUpload(e, key, u.(completed := true, claimant := Some((sequence, token))), e.ledger), Won(u.blocks))
  }

  function Settle(e: State, key: Key, response: Reply): State
    requires key in e.uploads
  {
    var u := e.uploads[key];
    PutUpload(e, key, u.(response := Some(response), bytes := 0, assembly := false), FreeBytes(e.ledger, u.bytes))
  }

  /** Last critical section: keep the response, give back the blocks. */
  function StoreResponse(e: State, key: Key, id: Id, response: Reply): State {
    if key !in e.uploads || e.uploads[key].id != id then e else Settle(e, key, response)
  }

  /** A completed upload without an answer, claimed by the request that failed. */
  predicate KeepsError(e: State, key: Key, sequence: int, token: seq<byte>) {
    && key in e.uploads && e.uploads[key].completed && e.uploads[key].response.None?
    && e.uploads[key].claimant == Some((sequence, token))
  }

  /** An error answer of the claiming request is kept instead. */
  function StoreFinalError(e: State, key: Key, sequence: int, token: seq<byte>, response: Reply): State {
    if KeepsError(e, key, sequence, token) then Settle(e, key, response) else e
  }

  /** The receive timer: report once more, or give up. */
  function UploadTimer(e: State, key: Key, now: int, deadline: int, maxRetransmit: int): State {
    if key !in e.uploads || e.uploads[key].completed || now < deadline then e
    else
      var u := e.uploads[key];
      if u.expires <= now || u.retries >= maxRetransmit then DropUpload(e, key)
      else PutUpload(e, key, u.(retries := u.retries + 1, updated := now), e.ledger)
  }

  /** A sweep over the uploads in some order: all of them on closing, the expired ones otherwise. */
  function SweepUploads(e: State, order: seq<Key>, cutoff: Option<int>): State
    decreases |order|
  {
    if order == [] then e
    else
      var e1 := SweepUploads(e, order[..|order| - 1], cutoff);
      var key := order[|order| - 1];
      if key in e1.uploads && (cutoff.None? || e1.uploads[key].expires <= cutoff.value) then DropUpload(e1, key) else e1
  }

  // ---------------------------------------------------------------- responses and observations (Q-Block2)

  /** Reserving for a copy of a response body. */
  function ReserveSnapshot(e: State, id: Id, size: int, grantBytes: bool, grantSlot: bool): (e': State)
    ensures UploadsAside(e, e')
  {
    if id in e.snapshots || size < 0 || size > MAX_BODY then e
    else
      match TryBytes(e.ledger, size, grantBytes)
      case None => e
      case Some(l) =>
        match TrySlot(l, grantSlot)
        case None => e.(ledger := FreeBytes(l, size))
        case Some(l') => e.(snapshots := e.snapshots[id := size], ledger := l')
  }

  function AbortSnapshot(e: State, id: Id): (e': State)
    ensures UploadsAside(e, e')
  {
    if id in e.snapshots then DropSnapshot(e, id) else e
  }

  /** Storing the copy, for a plain response or for the notification of a registration. */
  function StoreSnapshot(e: State, id: Id, key: Key, expires: int, notifies: Option<(Key, Id)>, observes: bool): (e': State)
    ensures UploadsAside(e, e')
  {
    if id !in e.snapshots then e
    else if e.outgoingClosed then DropSnapshot(e, id)
    else if notifies.Some? && !(notifies.value.0 in e.observations && e.observations[notifies.value.0].id == notifies.value.1)
      then DropSnapshot(e, id)
    else if key !in e.outgoing && |e.outgoing| >= MAX_ENTRIES then DropSnapshot(e, id)
    else
      var ends := notifies.Some? && !observes;
      var e1 := HandOver(DropIfOutgoing(e, key), id, key, expires, if ends then Some(notifies.value.0) else None);
      if ends then DropObservation(e1, notifies.value.0) else e1
  }

  /** The copied body is kept, and pays with what the copy was charged. */
  function HandOver(e: State, id: Id, key: Key, expires: int, terminalFor: Option<Key>): (e': State)
    requires id in e.snapshots
    ensures UploadsAside(e, e') && e'.observations == e.observations && e'.ledger == e.ledger
  {
    var o := Outgoing(e.nextId, e.snapshots[id], expires, terminalFor);
    e.(outgoing := e.outgoing[key := o], outgoingBytes := e.outgoingBytes + o.size,
       snapshots := e.snapshots - {id}, nextId := e.nextId + 1)
  }

  function InvalidateTerminal(e: State, key: Key, registration: Key): (e': State)
    ensures UploadsAside(e, e')
  {
    if key in e.outgoing && e.outgoing[key].terminalFor == Some(registration) then DropOutgoing(e, key) else e
  }

  function ExpireOutgoing(e: State, key: Key, now: int): (e': State)
    ensures UploadsAside(e, e')
  {
    if key in e.outgoing && e.outgoing[key].expires <= now then DropOutgoing(e, key) else e
  }

  function CancelObservation(e: State, registration: Key): (e': State)
    ensures UploadsAside(e, e')
  {
    if registration !in e.observations then e
    else DropIfOutgoing(DropObservation(e, registration), e.observations[registration].key)
  }

  function RegisterObservation(e: State, registration: Key, key: Key, granted: bool): (e': State)
    ensures UploadsAside(e, e')
  {
    if e.outgoingClosed then e
    else if registration in e.observations then
      var e1 := DropIfOutgoing(e, e.observations[registration].key);
      e1.(observations := e1.observations[registration := Observation(e1.nextId, key)], nextId := e1.nextId + 1)
    else if |e.observations| >= MAX_OBSERVATIONS then e
    else
      match TrySlot(e.ledger, granted)
      case None => e
      case Some(l) =>
        e.(observations := e.observations[registration := Observation(e.nextId, key)], nextId := e.nextId + 1, ledger := l)
  }

  function SweepOutgoing(e: State, order: seq<Key>, cutoff: Option<int>): (e': State)
    ensures UploadsAside(e, e')
    decreases |order|
  {
    if order == [] then e
    else
      var e1 := SweepOutgoing(e, order[..|order| - 1], cutoff);
      var key := order[|order| - 1];
      if key in e1.outgoing && (cutoff.None? || e1.outgoing[key].expires <= cutoff.value) then DropOutgoing(e1, key) else e1
  }

  function SweepObservations(e: State, order: seq<Key>): (e': State)
    ensures UploadsAside(e, e')
    decreases |order|
  {
    if order == [] then e
    else
      var e1 := SweepObservations(e, order[..|order| - 1]);
      var key := order[|order| - 1];
      if key in e1.observations then DropObservation(e1, key) else e1
  }

  // ---------------------------------------------------------------- client receivers

  function OpenReceiver(e: State, id: Id, granted: bool): (e': State)
    ensures UploadsAside(e, e')
  {
    if id in e.receivers then e
    else
      match TrySlot(e.ledger, granted)
      case None => e
      case Some(l) => e.(receivers := e.receivers[id := 0], ledger := l)
  }

  /** One payload: charged, and given back unless the body keeps it. */
  function FeedReceiver(e: State, id: Id, n: int, granted: bool, keeps: bool): (e': State)
    ensures UploadsAside(e, e')
  {
    if id !in e.receivers then e
    else
      match TryBytes(e.ledger, n, granted)
      case None => e
      case Some(l) =>
        if keeps then e.(receivers := e.receivers[id := e.receivers[id] + n], ledger := l)
        else e.(ledger := FreeBytes(l, n))
  }

  /** A newer representation replaces what was received so far. */
  function ResetReceiver(e: State, id: Id): (e': State)
    ensures UploadsAside(e, e')
  {
    if id !in e.receivers then e
    else e.(receivers := e.receivers[id := 0], ledger := FreeBytes(e.ledger, e.receivers[id]))
  }

  function CloseReceiver(e: State, id: Id): (e': State)
    ensures UploadsAside(e, e')
  {
    if id !in e.receivers then e
    else e.(receivers := e.receivers - {id}, ledger := FreeBytes(FreeSlot(e.ledger), e.receivers[id]))
  }

  // ---------------------------------------------------------------- closing

  function CloseUploadsIn(e: State, order: seq<Key>): State {
    SweepUploads(e, order, None).(uploadsClosed := true, uploadBytes := 0)
  }

  function CloseOutgoingIn(e: State, observed: seq<Key>, order: seq<Key>): (e': State)
    ensures UploadsAside(e, e')
  {
    SweepOutgoing(SweepObservations(e, observed), order, None).(outgoingClosed := true, outgoingBytes := 0)
  }

  // ---------------------------------------------------------------- runs

  datatype Step =
    | Admit(key: Key, p: Params, now: int, lifetime: int, maxBody: int, maxEntries: int, granted: bool)
    | Add(key: Key, id: Id, p: Params, payload: seq<byte>, now: int, granted: bool)
    | ClaimIt(key: Key, id: Id, sequence: int, token: seq<byte>)
    | Store(key: Key, id: Id, response: Reply)
    | FinalError(key: Key, sequence: int, token: seq<byte>, response: Reply)
    | Timer(key: Key, now: int, deadline: int, maxRetransmit: int)
    | ExpireUploads(order: seq<Key>, now: int)
    | CloseUploads(order: seq<Key>)
    | Reserve(id: Id, size: int, grantBytes: bool, grantSlot: bool)
    | Abort(id: Id)
    | Keep(id: Id, key: Key, expires: int, notifies: Option<(Key, Id)>, observes: bool)
    | Invalidate(key: Key, registration: Key)
    | ExpireOne(key: Key, now: int)
    | Cancel(registration: Key)
    | Register(registration: Key, key: Key, granted: bool)
    | ExpireAll(order: seq<Key>, now: int)
    | CloseOutgoing(observed: seq<Key>, order: seq<Key>)
    | Open(id: Id, granted: bool)
    | Feed(id: Id, n: int, granted: bool, keeps: bool)
    | Reset(id: Id)
    | Return(id: Id)

  ghost function Apply(e: State, s: Step): (e': State) {
    match s
    case Admit(key, p, now, lifetime, maxBody, maxEntries, granted) =>
      AdmitUpload(e, key, p, now, lifetime, maxBody, maxEntries, granted).0
    case Add(key, id, p, payload, now, granted) => AddPayload(e, key, id, p, payload, now, granted).0
    case ClaimIt(key, id, sequence, token) => ClaimUpload(e, key, id, sequence, token).0
    case Store(key, id, response) => StoreResponse(e, key, id, response)
    case FinalError(key, sequence, token, response) => StoreFinalError(e, key, sequence, token, response)
    case Timer(key, now, deadline, maxRetransmit) => UploadTimer(e, key, now, deadline, maxRetransmit)
    case ExpireUploads(order, now) => SweepUploads(e, order, Some(now))
    case CloseUploads(order) => CloseUploadsIn(e, order)
    case Reserve(id, size, grantBytes, grantSlot) => ReserveSnapshot(e, id, size, grantBytes, grantSlot)
    case Abort(id) => AbortSnapshot(e, id)
    case Keep(id, key, expires, notifies, observes) => StoreSnapshot(e, id, key, expires, notifies, observes)
    case Invalidate(key, registration) => InvalidateTerminal(e, key, registration)
    case ExpireOne(key, now) => ExpireOutgoing(e, key, now)
    case Cancel(registration) => CancelObservation(e, registration)
    case Register(registration, key, granted) => RegisterObservation(e, registration, key, granted)
    case ExpireAll(order, now) => SweepOutgoing(e, order, Some(now))
    case CloseOutgoing(observed, order) => CloseOutgoingIn(e, observed, order)
    case Open(id, granted) => OpenReceiver(e, id, granted)
    case Feed(id, n, granted, keeps) => FeedReceiver(e, id, n, granted, keeps)
    case Reset(id) => ResetReceiver(e, id)
    case Return(id) => CloseReceiver(e, id)
  }

  /** Closing visits every entry there is; other steps need nothing. */
  ghost predicate Allowed(e: State, s: Step) {
    && (s.CloseUploads? ==> forall k :: k in e.uploads ==> k in s.order)
    && (s.CloseOutgoing? ==> (forall k :: k in e.outgoing ==> k in s.order)
                             && forall k :: k in e.observations ==> k in s.observed)
  }
}

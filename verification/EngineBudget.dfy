/** Conservation of the retention budget: in every run of every engine the counters equal what is
    actually retained, never exceed their limits, and come back to zero. */
module EngineBudget {
  import opened Base
  import opened Transfer
  import opened Sums
  import opened Engine

  ghost function UploadBytes(m: map<Key, Upload>): (w: map<Key, int>) {
    map k | k in m :: m[k].bytes
  }

  ghost function OutgoingBytes(m: map<Key, Outgoing>): (w: map<Key, int>) {
    map k | k in m :: m[k].size
  }

  /** The engine's counters are the totals over the four kinds of owner, and observations. */
  ghost predicate Conserved(e: State) {
    && e.uploadBytes == Sum(UploadBytes(e.uploads))
    && e.outgoingBytes == Sum(OutgoingBytes(e.outgoing))
    && e.ledger.bytes == e.uploadBytes + e.outgoingBytes + Sum(e.receivers) + Sum(e.snapshots)
    && e.ledger.slots == |e.uploads| + |e.outgoing| + |e.observations| + |e.receivers| + |e.snapshots|
  }

  predicate Within(l: Ledger) {
    && l.bytes <= ENGINE_BYTES && l.slots <= ENGINE_SLOTS
    && l.processBytes <= PROCESS_BYTES && l.processSlots <= PROCESS_SLOTS
  }

  ghost predicate NonNegative(e: State) {
    && (forall k :: k in e.uploads ==> 0 <= e.uploads[k].bytes)
    && (forall k :: k in e.outgoing ==> 0 <= e.outgoing[k].size)
    && (forall k :: k in e.receivers ==> 0 <= e.receivers[k])
    && (forall k :: k in e.snapshots ==> 0 <= e.snapshots[k])
  }

  ghost predicate ClosedIsEmpty(e: State) {
    && (e.uploadsClosed ==> e.uploads == map[])
    && (e.outgoingClosed ==> e.outgoing == map[] && e.observations == map[])
  }

  ghost predicate Inv(e: State) {
    Conserved(e) && Within(e.ledger) && NonNegative(e) && ClosedIsEmpty(e)
  }

  /** Both pairs of counters move together. */
  predicate InStep(l: Ledger, l': Ledger) {
    && l'.bytes - l.bytes == l'.processBytes - l.processBytes
    && l'.slots - l.slots == l'.processSlots - l.processSlots
  }

  // ---------------------------------------------------------------- elementary changes

  /** What a ledger must look like after a change of `bytes` and `slots`. */
  predicate Moved(l: Ledger, l': Ledger, bytes: int, slots: int) {
    l' == Ledger(l.bytes + bytes, l.slots + slots, l.processBytes + bytes, l.processSlots + slots)
  }

  lemma PutUploadKeeps(e: State, key: Key, u: Upload, l: Ledger)
    requires Inv(e) && !e.uploadsClosed && 0 <= u.bytes
    requires Moved(e.ledger, l, u.bytes - (if key in e.uploads then e.uploads[key].bytes else 0),
                   if key in e.uploads then 0 else 1)
    requires Within(l)
    ensures Inv(PutUpload(e, key, u, l)) && InStep(e.ledger, l)
  {
    hide UploadBytes, OutgoingBytes, Sum;
    UploadTotals(e.uploads, key, u);
  }

  lemma UploadTotals(m: map<Key, Upload>, key: Key, u: Upload)
    ensures Sum(UploadBytes(m[key := u])) == Sum(UploadBytes(m)) - (if key in m then m[key].bytes else 0) + u.bytes
    ensures |m[key := u]| == |m| + (if key in m then 0 else 1)
  {
    hide Sum;
    assert UploadBytes(m[key := u]) == UploadBytes(m)[key := u.bytes];
    SumPut(UploadBytes(m), key, u.bytes);
    SizePut(m, key, u);
  }

  lemma UploadTotalsDrop(m: map<Key, Upload>, key: Key)
    requires key in m
    ensures Sum(UploadBytes(m - {key})) == Sum(UploadBytes(m)) - m[key].bytes
    ensures |m - {key}| == |m| - 1
  {
    hide Sum;
    assert UploadBytes(m - {key}) == UploadBytes(m) - {key};
    SumDrop(UploadBytes(m), key);
    SizeDrop(m, key);
  }

  lemma OutgoingTotals(m: map<Key, Outgoing>, key: Key, o: Outgoing)
    ensures Sum(OutgoingBytes(m[key := o])) == Sum(OutgoingBytes(m)) - (if key in m then m[key].size else 0) + o.size
    ensures |m[key := o]| == |m| + (if key in m then 0 else 1)
  {
    hide Sum;
    assert OutgoingBytes(m[key := o]) == OutgoingBytes(m)[key := o.size];
    SumPut(OutgoingBytes(m), key, o.size);
    SizePut(m, key, o);
  }

  lemma OutgoingTotalsDrop(m: map<Key, Outgoing>, key: Key)
    requires key in m
    ensures Sum(OutgoingBytes(m - {key})) == Sum(OutgoingBytes(m)) - m[key].size
    ensures |m - {key}| == |m| - 1
  {
    hide Sum;
    assert OutgoingBytes(m - {key}) == OutgoingBytes(m) - {key};
    SumDrop(OutgoingBytes(m), key);
    SizeDrop(m, key);
  }

  lemma DropUploadKeeps(e: State, key: Key)
    requires Inv(e) && key in e.uploads
    ensures Inv(DropUpload(e, key)) && InStep(e.ledger, DropUpload(e, key).ledger)
  {
    hide UploadBytes, OutgoingBytes, Sum;
    UploadTotalsDrop(e.uploads, key);
  }

  lemma DropOutgoingKeeps(e: State, key: Key)
    requires Inv(e)
    ensures Inv(DropIfOutgoing(e, key)) && InStep(e.ledger, DropIfOutgoing(e, key).ledger)
  {
    hide UploadBytes, OutgoingBytes, Sum;
    if key in e.outgoing {
      OutgoingTotalsDrop(e.outgoing, key);
    }
  }

  lemma DropObservationKeeps(e: State, key: Key)
    requires Inv(e) && key in e.observations
    ensures Inv(DropObservation(e, key)) && InStep(e.ledger, DropObservation(e, key).ledger)
  {
    hide UploadBytes, OutgoingBytes, Sum;
    SizeDrop(e.observations, key);
  }

  lemma DropSnapshotKeeps(e: State, id: Id)
    requires Inv(e) && id in e.snapshots
    ensures Inv(DropSnapshot(e, id)) && InStep(e.ledger, DropSnapshot(e, id).ledger)
  {
    hide UploadBytes, OutgoingBytes, Sum;
    SumDrop(e.snapshots, id);
    SizeDrop(e.snapshots, id);
  }

  // ---------------------------------------------------------------- uploads

  lemma AdmitKeeps(e: State, key: Key, p: Params, now: int, lifetime: int, maxBody: int, maxEntries: int, granted: bool)
    requires Inv(e)
    ensures var e' := AdmitUpload(e, key, p, now, lifetime, maxBody, maxEntries, granted).0;
            Inv(e') && InStep(e.ledger, e'.ledger)
  {
    hide Inv, AdmitUpload, MakeWay, PutUpload, DropUpload, TrySlot, Within, Moved, InStep;
    var (e', r) := AdmitUpload(e, key, p, now, lifetime, maxBody, maxEntries, granted);
    var e1 := MakeWay(e, key, now);
    AdmitCases(e, key, p, now, lifetime, maxBody, maxEntries, granted);
    WayKeeps(e, key, now);
    if r.Proceed? {
      var u := e'.uploads[key];
      InvOpen(e1);
      SlotMoves(e1.ledger, granted);
      SameMoves(e1.ledger);
      PutUploadKeeps(e1, key, u, e'.ledger);
      RenumberKeeps(PutUpload(e1, key, u, e'.ledger), e'.nextId);
      InStepOn(e.ledger, e1.ledger, e'.ledger);
    }
  }

  lemma WayKeeps(e: State, key: Key, now: int)
    requires Inv(e)
    ensures Inv(MakeWay(e, key, now)) && InStep(e.ledger, MakeWay(e, key, now).ledger)
    ensures MakeWay(e, key, now).uploadsClosed == e.uploadsClosed
  {
    hide Inv, DropUpload;
    if key in e.uploads {
      DropUploadKeeps(e, key);
    }
  }

  lemma SlotMoves(l: Ledger, granted: bool)
    requires Within(l)
    ensures TrySlot(l, granted).Some? ==> Moved(l, TrySlot(l, granted).value, 0, 1) && Within(TrySlot(l, granted).value)
  {
  }

  lemma BytesMove(l: Ledger, n: nat, granted: bool)
    requires Within(l)
    ensures TryBytes(l, n, granted).Some? ==> Moved(l, TryBytes(l, n, granted).value, n, 0) && Within(TryBytes(l, n, granted).value)
  {
  }

  lemma SameMoves(l: Ledger)
    ensures Moved(l, l, 0, 0)
  {
  }

  lemma InvOpen(e: State)
    requires Inv(e)
    ensures Within(e.ledger) && Moved(e.ledger, e.ledger, 0, 0)
    ensures forall k :: k in e.uploads ==> 0 <= e.uploads[k].bytes
    ensures forall k :: k in e.snapshots ==> 0 <= e.snapshots[k]
    ensures forall k :: k in e.receivers ==> 0 <= e.receivers[k]
    ensures forall k :: k in e.uploads ==> !e.uploadsClosed
  {
  }

  lemma RenumberKeeps(e: State, next: Id)
    requires Inv(e)
    ensures Inv(e.(nextId := next))
  {
  }

  lemma AddKeeps(e: State, key: Key, id: Id, p: Params, payload: seq<byte>, now: int, granted: bool)
    requires Inv(e)
    ensures var e' := AddPayload(e, key, id, p, payload, now, granted).0;
            Inv(e') && InStep(e.ledger, e'.ledger)
  {
    hide Inv, Layout.Fits, AllStored, IsFirstGap, PutUpload, DropUpload, Within;
    InvOpen(e);
    BytesMove(e.ledger, |payload|, granted);
    if !e.uploadsClosed && key in e.uploads && e.uploads[key].id == id && !e.uploads[key].completed
       && e.uploads[key].assembly && TryBytes(e.ledger, |payload|, granted).Some?
    {
      var u, l := e.uploads[key], TryBytes(e.ledger, |payload|, granted).value;
      var charged := u.(bytes := u.bytes + |payload|);
      var e1 := PutUpload(e, key, charged, l);
      PutUploadKeeps(e, key, charged, l);
      if p.num in u.blocks || !u.Shape().Fits(p.num, p.more, payload) {
        TakeBackKeeps(e, key, u, e1, |payload|);
      } else {
        var kept := charged.(blocks := u.blocks[p.num := payload], updated := now,
                             retries := if IsFirstGap(u, p.num) then 0 else u.retries);
        PutUploadKeeps(e1, key, kept, e1.ledger);
      }
    }
  }

  /** A payload that is not kept is paid back, with the record or without it. */
  lemma TakeBackKeeps(e: State, key: Key, u: Upload, e1: State, n: nat)
    requires Inv(e) && Inv(e1) && InStep(e.ledger, e1.ledger) && 0 <= u.bytes
    requires key in e1.uploads && e1.uploads[key].bytes == u.bytes + n && !e1.uploadsClosed
    ensures var e2 := PutUpload(e1, key, u, FreeBytes(e1.ledger, n));
            && key in e2.uploads && Inv(e2) && InStep(e.ledger, e2.ledger)
            && Inv(DropUpload(e2, key)) && InStep(e.ledger, DropUpload(e2, key).ledger)
  {
    hide Inv, PutUpload, DropUpload;
    InvOpen(e1);
    var back := FreeBytes(e1.ledger, n);
    PutUploadKeeps(e1, key, u, back);
    DropUploadKeeps(PutUpload(e1, key, u, back), key);
  }

  lemma SettleKeeps(e: State, key: Key, response: Reply)
    requires Inv(e) && key in e.uploads
    ensures Inv(Settle(e, key, response)) && InStep(e.ledger, Settle(e, key, response).ledger)
  {
    hide Inv;
    InvOpen(e);
    var e' := Settle(e, key, response);
    PutUploadKeeps(e, key, e'.uploads[key], e'.ledger);
  }

  lemma RecordKeeps(e: State, key: Key, u: Upload)
    requires Inv(e) && key in e.uploads && u.bytes == e.uploads[key].bytes
    ensures Inv(PutUpload(e, key, u, e.ledger))
  {
    hide Inv;
    InvOpen(e);
    PutUploadKeeps(e, key, u, e.ledger);
  }

  lemma ClaimKeeps(e: State, key: Key, id: Id, sequence: int, token: seq<byte>)
    requires Inv(e)
    ensures var e' := ClaimUpload(e, key, id, sequence, token).0;
            Inv(e') && InStep(e.ledger, e'.ledger)
  {
    hide Inv;
    if key in e.uploads {
      RecordKeeps(e, key, e.uploads[key].(completed := true, claimant := Some((sequence, token))));
    }
  }

  lemma StoreResponseKeeps(e: State, key: Key, id: Id, response: Reply)
    requires Inv(e)
    ensures var e' := StoreResponse(e, key, id, response); Inv(e') && InStep(e.ledger, e'.ledger)
  {
    hide Inv, Settle;
    if key in e.uploads {
      SettleKeeps(e, key, response);
    }
  }

  lemma StoreFinalErrorKeeps(e: State, key: Key, sequence: int, token: seq<byte>, response: Reply)
    requires Inv(e)
    ensures var e' := StoreFinalError(e, key, sequence, token, response); Inv(e') && InStep(e.ledger, e'.ledger)
  {
    hide Inv, Settle;
    if key in e.uploads {
      SettleKeeps(e, key, response);
    }
  }

  lemma TimerKeeps(e: State, key: Key, now: int, deadline: int, maxRetransmit: int)
    requires Inv(e)
    ensures var e' := UploadTimer(e, key, now, deadline, maxRetransmit); Inv(e') && InStep(e.ledger, e'.ledger)
  {
    hide Inv;
    if key in e.uploads {
      DropUploadKeeps(e, key);
      RecordKeeps(e, key, e.uploads[key].(retries := e.uploads[key].retries + 1, updated := now));
    }
  }

  lemma {:induction false} SweepUploadsKeeps(e: State, order: seq<Key>, cutoff: Option<int>)
    requires Inv(e)
    ensures var e' := SweepUploads(e, order, cutoff);
            && Inv(e') && InStep(e.ledger, e'.ledger)
            && e'.uploadsClosed == e.uploadsClosed && e'.uploads.Keys <= e.uploads.Keys
            && (cutoff.None? ==> forall k :: k in order ==> k !in e'.uploads)
            && (cutoff.Some? ==> forall k :: k in order && k in e'.uploads ==> e'.uploads[k].expires > cutoff.value)
    decreases |order|
  {
    hide Inv, DropUpload;
    if order != [] {
      var init, key := order[..|order| - 1], order[|order| - 1];
      SweepUploadsKeeps(e, init, cutoff);
      var e1 := SweepUploads(e, init, cutoff);
      if key in e1.uploads {
        DropUploadKeeps(e1, key);
      }
      assert forall k :: k in order <==> k in init || k == key;
    }
  }

  lemma CloseUploadsKeeps(e: State, order: seq<Key>)
    requires Inv(e) && forall k :: k in e.uploads ==> k in order
    ensures var e' := CloseUploadsIn(e, order);
            Inv(e') && InStep(e.ledger, e'.ledger) && e'.uploads == map[]
  {
    hide SweepUploads;
    SweepUploadsKeeps(e, order, None);
    var e1 := SweepUploads(e, order, None);
    assert e1.uploads.Keys == {};
    assert e1.uploads == map[];
    SumEmpty(UploadBytes(e1.uploads));
  }

  // ---------------------------------------------------------------- responses and observations

  lemma SnapshotKeeps(e: State, id: Id, size: int, grantBytes: bool, grantSlot: bool)
    requires Inv(e)
    ensures var e' := ReserveSnapshot(e, id, size, grantBytes, grantSlot);
            Inv(e') && InStep(e.ledger, e'.ledger)
  {
    hide Inv;
    InvOpen(e);
    if id !in e.snapshots && 0 <= size <= MAX_BODY && TryBytes(e.ledger, size, grantBytes).Some? {
      var l := TryBytes(e.ledger, size, grantBytes).value;
      assert e.(ledger := FreeBytes(l, size)) == e;
      if TrySlot(l, grantSlot).Some? {
        AddSnapshotKeeps(e, id, size, TrySlot(l, grantSlot).value);
      }
    }
  }

  lemma AddSnapshotKeeps(e: State, id: Id, size: nat, l: Ledger)
    requires Inv(e) && id !in e.snapshots && Moved(e.ledger, l, size, 1) && Within(l)
    ensures Inv(e.(snapshots := e.snapshots[id := size], ledger := l))
  {
    hide UploadBytes, OutgoingBytes, Sum;
    SumPut(e.snapshots, id, size);
    SizePut(e.snapshots, id, size);
  }

  /** Storing moves the charge from the snapshot to the stored body. */
  lemma HandOverKeeps(e: State, id: Id, key: Key, expires: int, terminalFor: Option<Key>)
    requires Inv(e) && id in e.snapshots && key !in e.outgoing && !e.outgoingClosed
    ensures Inv(HandOver(e, id, key, expires, terminalFor))
  {
    hide UploadBytes, OutgoingBytes, Sum;
    OutgoingTotals(e.outgoing, key, Outgoing(e.nextId, e.snapshots[id], expires, terminalFor));
    SumDrop(e.snapshots, id);
    SizeDrop(e.snapshots, id);
  }

  lemma StoreKeeps(e: State, id: Id, key: Key, expires: int, notifies: Option<(Key, Id)>, observes: bool)
    requires Inv(e)
    ensures var e' := StoreSnapshot(e, id, key, expires, notifies, observes);
            Inv(e') && InStep(e.ledger, e'.ledger)
  {
    hide Inv, DropSnapshot, DropObservation, DropIfOutgoing, HandOver, InStep;
    SameStep(e.ledger);
    if id in e.snapshots {
      DropSnapshotKeeps(e, id);
      if !e.outgoingClosed {
        DropOutgoingKeeps(e, key);
        var e1 := DropIfOutgoing(e, key);
        var ends := notifies.Some? && !observes;
        var terminalFor := if ends then Some(notifies.value.0) else None;
        HandOverKeeps(e1, id, key, expires, terminalFor);
        var e2 := HandOver(e1, id, key, expires, terminalFor);
        if ends && notifies.value.0 in e.observations {
          DropObservationKeeps(e2, notifies.value.0);
          InStepOn(e.ledger, e2.ledger, DropObservation(e2, notifies.value.0).ledger);
        }
      }
    }
  }

  lemma SameStep(l: Ledger)
    ensures InStep(l, l)
  {
  }

  lemma InStepOn(a: Ledger, b: Ledger, c: Ledger)
    requires InStep(a, b) && InStep(b, c)
    ensures InStep(a, c)
  {
  }

  lemma RegisterKeeps(e: State, registration: Key, key: Key, granted: bool)
    requires Inv(e)
    ensures var e' := RegisterObservation(e, registration, key, granted);
            Inv(e') && InStep(e.ledger, e'.ledger)
  {
    hide Inv, DropIfOutgoing;
    InvOpen(e);
    if registration in e.observations {
      var e1 := DropIfOutgoing(e, e.observations[registration].key);
      DropOutgoingKeeps(e, e.observations[registration].key);
      ObservedIsOpen(e, registration);
      InvOpen(e1);
      PutObservationKeeps(e1, registration, Observation(e1.nextId, key), e1.ledger);
    } else if !e.outgoingClosed && TrySlot(e.ledger, granted).Some? {
      PutObservationKeeps(e, registration, Observation(e.nextId, key), TrySlot(e.ledger, granted).value);
    }
  }

  /** With an observation registered the caches are open. */
  lemma ObservedIsOpen(e: State, registration: Key)
    requires Inv(e) && registration in e.observations
    ensures !e.outgoingClosed
  {
    hide Conserved, Within, NonNegative;
  }

  lemma PutObservationKeeps(e: State, registration: Key, o: Observation, l: Ledger)
    requires Inv(e) && !e.outgoingClosed && Within(l)
    requires Moved(e.ledger, l, 0, if registration in e.observations then 0 else 1)
    ensures Inv(e.(observations := e.observations[registration := o], nextId := e.nextId + 1, ledger := l))
  {
    hide UploadBytes, OutgoingBytes, Sum;
    SizePut(e.observations, registration, o);
  }

  lemma CancelKeeps(e: State, registration: Key)
    requires Inv(e)
    ensures var e' := CancelObservation(e, registration); Inv(e') && InStep(e.ledger, e'.ledger)
  {
    hide Inv, DropIfOutgoing, DropObservation;
    if registration in e.observations {
      DropObservationKeeps(e, registration);
      DropOutgoingKeeps(DropObservation(e, registration), e.observations[registration].key);
    }
  }

  lemma {:induction false} SweepOutgoingKeeps(e: State, order: seq<Key>, cutoff: Option<int>)
    requires Inv(e)
    ensures var e' := SweepOutgoing(e, order, cutoff);
            && Inv(e') && InStep(e.ledger, e'.ledger)
            && e'.outgoingClosed == e.outgoingClosed && e'.observations == e.observations
            && e'.outgoing.Keys <= e.outgoing.Keys
            && (cutoff.None? ==> forall k :: k in order ==> k !in e'.outgoing)
    decreases |order|
  {
    hide Inv;
    if order != [] {
      var init, key := order[..|order| - 1], order[|order| - 1];
      SweepOutgoingKeeps(e, init, cutoff);
      var e1 := SweepOutgoing(e, init, cutoff);
      DropOutgoingKeeps(e1, key);
      assert forall k :: k in order <==> k in init || k == key;
    }
  }

  lemma {:induction false} SweepObservationsKeeps(e: State, order: seq<Key>)
    requires Inv(e)
    ensures var e' := SweepObservations(e, order);
            && Inv(e') && InStep(e.ledger, e'.ledger)
            && e'.outgoingClosed == e.outgoingClosed && e'.outgoing == e.outgoing
            && e'.observations.Keys <= e.observations.Keys
            && (forall k :: k in order ==> k !in e'.observations)
    decreases |order|
  {
    hide Inv;
    if order != [] {
      var init, key := order[..|order| - 1], order[|order| - 1];
      SweepObservationsKeeps(e, init);
      var e1 := SweepObservations(e, init);
      if key in e1.observations {
        DropObservationKeeps(e1, key);
      }
      assert forall k :: k in order <==> k in init || k == key;
    }
  }

  lemma CloseOutgoingKeeps(e: State, observed: seq<Key>, order: seq<Key>)
    requires Inv(e) && Allowed(e, CloseOutgoing(observed, order))
    ensures var e' := CloseOutgoingIn(e, observed, order);
            Inv(e') && InStep(e.ledger, e'.ledger) && e'.outgoing == map[] && e'.observations == map[]
  {
    hide SweepOutgoing, SweepObservations, Inv, OutgoingBytes;
    SweepObservationsKeeps(e, observed);
    var e1 := SweepObservations(e, observed);
    assert e1.observations.Keys == {};
    assert e1.observations == map[];
    SweepOutgoingKeeps(e1, order, None);
    var e2 := SweepOutgoing(e1, order, None);
    assert e2.outgoing.Keys == {};
    assert e2.outgoing == map[];
    ShutKeeps(e2);
  }

  lemma ShutKeeps(e: State)
    requires Inv(e) && e.outgoing == map[] && e.observations == map[]
    ensures Inv(e.(outgoingClosed := true, outgoingBytes := 0))
  {
    hide UploadBytes, Sum;
    SumEmpty(OutgoingBytes(e.outgoing));
  }

  // ---------------------------------------------------------------- client receivers

  /** Any change to one receiver that the ledger has been moved for. */
  lemma ReceiverKeeps(e: State, id: Id, n: int, l: Ledger)
    requires Inv(e) && 0 <= n && Within(l)
    requires Moved(e.ledger, l, n - (if id in e.receivers then e.receivers[id] else 0), if id in e.receivers then 0 else 1)
    ensures Inv(e.(receivers := e.receivers[id := n], ledger := l))
  {
    hide UploadBytes, OutgoingBytes, Sum;
    SumPut(e.receivers, id, n);
    SizePut(e.receivers, id, n);
  }

  lemma FeedKeeps(e: State, id: Id, n: int, granted: bool, keeps: bool)
    requires Inv(e)
    ensures var e' := FeedReceiver(e, id, n, granted, keeps); Inv(e') && InStep(e.ledger, e'.ledger)
  {
    hide Inv;
    InvOpen(e);
    if id in e.receivers && TryBytes(e.ledger, n, granted).Some? {
      var l := TryBytes(e.ledger, n, granted).value;
      if keeps {
        ReceiverKeeps(e, id, e.receivers[id] + n, l);
      } else {
        assert e.(ledger := FreeBytes(l, n)) == e;
      }
    }
  }

  lemma OpenKeeps(e: State, id: Id, granted: bool)
    requires Inv(e)
    ensures var e' := OpenReceiver(e, id, granted); Inv(e') && InStep(e.ledger, e'.ledger)
  {
    hide Inv;
    InvOpen(e);
    if id !in e.receivers && TrySlot(e.ledger, granted).Some? {
      ReceiverKeeps(e, id, 0, TrySlot(e.ledger, granted).value);
    }
  }

  lemma ResetKeeps(e: State, id: Id)
    requires Inv(e)
    ensures var e' := ResetReceiver(e, id); Inv(e') && InStep(e.ledger, e'.ledger)
  {
    hide Inv;
    InvOpen(e);
    if id in e.receivers {
      ReceiverKeeps(e, id, 0, FreeBytes(e.ledger, e.receivers[id]));
    }
  }

  lemma DropReceiverKeeps(e: State, id: Id, l: Ledger)
    requires Inv(e) && id in e.receivers && Moved(e.ledger, l, -e.receivers[id], -1) && Within(l)
    ensures Inv(e.(receivers := e.receivers - {id}, ledger := l))
  {
    hide UploadBytes, OutgoingBytes, Sum, Within;
    SumDrop(e.receivers, id);
    SizeDrop(e.receivers, id);
  }

  lemma ReturnKeeps(e: State, id: Id)
    requires Inv(e)
    ensures var e' := CloseReceiver(e, id); Inv(e') && InStep(e.ledger, e'.ledger)
  {
    hide Inv;
    InvOpen(e);
    if id in e.receivers {
      DropReceiverKeeps(e, id, FreeBytes(FreeSlot(e.ledger), e.receivers[id]));
    }
  }

  // ---------------------------------------------------------------- every step, every run

  /** Every step conserves the budget and moves engine and process counters together. */
  lemma StepConserves(e: State, s: Step)
    requires Inv(e) && Allowed(e, s)
    ensures Inv(Apply(e, s)) && InStep(e.ledger, Apply(e, s).ledger)
  {
    hide Inv, AdmitUpload, AddPayload, ClaimUpload, StoreResponse, StoreFinalError, UploadTimer, SweepUploads,
      CloseUploadsIn, ReserveSnapshot, StoreSnapshot, CancelObservation, RegisterObservation, SweepOutgoing,
      CloseOutgoingIn, OpenReceiver, FeedReceiver, ResetReceiver, CloseReceiver, DropSnapshot, DropOutgoing;
    match s
    case Admit(key, p, now, lifetime, maxBody, maxEntries, granted) =>
      AdmitKeeps(e, key, p, now, lifetime, maxBody, maxEntries, granted);
    case Add(key, id, p, payload, now, granted) => AddKeeps(e, key, id, p, payload, now, granted);
    case ClaimIt(key, id, sequence, token) => ClaimKeeps(e, key, id, sequence, token);
    case Store(key, id, response) => StoreResponseKeeps(e, key, id, response);
    case FinalError(key, sequence, token, response) => StoreFinalErrorKeeps(e, key, sequence, token, response);
    case Timer(key, now, deadline, maxRetransmit) => TimerKeeps(e, key, now, deadline, maxRetransmit);
    case ExpireUploads(order, now) => SweepUploadsKeeps(e, order, Some(now));
    case CloseUploads(order) => CloseUploadsKeeps(e, order);
    case _ => OtherConserves(e, s);
  }

  /** The steps that do not concern uploads. */
  lemma OtherConserves(e: State, s: Step)
    requires Inv(e) && Allowed(e, s) && !s.Admit? && !s.Add? && !s.ClaimIt? && !s.Store? && !s.FinalError? && !s.Timer?
    requires !s.ExpireUploads? && !s.CloseUploads?
    ensures Inv(Apply(e, s)) && InStep(e.ledger, Apply(e, s).ledger)
  {
    hide Inv, InStep, ReserveSnapshot, StoreSnapshot, CancelObservation, RegisterObservation, SweepOutgoing,
      CloseOutgoingIn, OpenReceiver, FeedReceiver, ResetReceiver, CloseReceiver, DropSnapshot, DropOutgoing;
    SameStep(e.ledger);
    match s
    case Reserve(id, size, grantBytes, grantSlot) => SnapshotKeeps(e, id, size, grantBytes, grantSlot);
    case Abort(id) =>
      if id in e.snapshots {
        DropSnapshotKeeps(e, id);
      }
    case Keep(id, key, expires, notifies, observes) => StoreKeeps(e, id, key, expires, notifies, observes);
    case Invalidate(key, _) => DropOutgoingKeeps(e, key);
    case ExpireOne(key, _) => DropOutgoingKeeps(e, key);
    case Cancel(registration) => CancelKeeps(e, registration);
    case Register(registration, key, granted) => RegisterKeeps(e, registration, key, granted);
    case ExpireAll(order, now) => SweepOutgoingKeeps(e, order, Some(now));
    case CloseOutgoing(observed, order) => CloseOutgoingKeeps(e, observed, order);
    case Open(id, granted) => OpenKeeps(e, id, granted);
    case Feed(id, n, granted, keeps) => FeedKeeps(e, id, n, granted, keeps);
    case Reset(id) => ResetKeeps(e, id);
    case Return(id) => ReturnKeeps(e, id);
  }

  /** All engines of a process and the counters they share. */
  datatype World = World(engines: map<nat, State>, processBytes: int, processSlots: int)

  /** An engine as it runs, with the shared counters in its ledger. */
  function Loaded(w: World, i: nat): State
    requires i in w.engines
  {
    var e := w.engines[i];
    e.(ledger := e.ledger.(processBytes := w.processBytes, processSlots := w.processSlots))
  }

  ghost function WorldStep(w: World, i: nat, s: Step): World {
    if i !in w.engines then w
    else
      var e := Apply(Loaded(w, i), s);
      World(w.engines[i := e], e.ledger.processBytes, e.ledger.processSlots)
  }

  ghost function BytesOf(engines: map<nat, State>): map<nat, int> {
    map i | i in engines :: engines[i].ledger.bytes
  }

  ghost function SlotsOf(engines: map<nat, State>): map<nat, int> {
    map i | i in engines :: engines[i].ledger.slots
  }

  /** Every engine balances, and the process counters are the sums over the engines. */
  ghost predicate WorldInv(w: World) {
    && (forall i :: i in w.engines ==> Inv(Loaded(w, i)))
    && w.processBytes == Sum(BytesOf(w.engines)) && w.processSlots == Sum(SlotsOf(w.engines))
    && w.processBytes <= PROCESS_BYTES && w.processSlots <= PROCESS_SLOTS
  }

  lemma WorldStepConserves(w: World, i: nat, s: Step)
    requires WorldInv(w) && (i in w.engines ==> Allowed(Loaded(w, i), s))
    ensures WorldInv(WorldStep(w, i, s))
  {
    hide Apply, Allowed, Inv, BytesOf, SlotsOf;
    if i in w.engines {
      var e0, w' := Loaded(w, i), WorldStep(w, i, s);
      StepConserves(e0, s);
      var e := Apply(e0, s);
      InvOpen(e);
      forall j | j in w'.engines
        ensures Inv(Loaded(w', j))
      {
        if j == i {
          assert Loaded(w', i) == e;
        } else {
          Reload(Loaded(w, j), w'.processBytes, w'.processSlots);
        }
      }
      TotalsFollow(w.engines, i, e);
    }
  }

  lemma TotalsFollow(engines: map<nat, State>, i: nat, e: State)
    requires i in engines
    ensures Sum(BytesOf(engines[i := e])) == Sum(BytesOf(engines)) + e.ledger.bytes - engines[i].ledger.bytes
    ensures Sum(SlotsOf(engines[i := e])) == Sum(SlotsOf(engines)) + e.ledger.slots - engines[i].ledger.slots
  {
    assert BytesOf(engines[i := e]) == BytesOf(engines)[i := e.ledger.bytes];
    assert SlotsOf(engines[i := e]) == SlotsOf(engines)[i := e.ledger.slots];
    SumPut(BytesOf(engines), i, e.ledger.bytes);
    SumPut(SlotsOf(engines), i, e.ledger.slots);
  }

  lemma Reload(e: State, processBytes: int, processSlots: int)
    requires Inv(e) && processBytes <= PROCESS_BYTES && processSlots <= PROCESS_SLOTS
    ensures Inv(e.(ledger := e.ledger.(processBytes := processBytes, processSlots := processSlots)))
  {
  }

  ghost predicate Reaches(w: World, run: seq<(nat, Step)>, w': World)
    decreases |run|
  {
    if run == [] then w == w'
    else
      exists mid: World ::
        && Reaches(w, run[..|run| - 1], mid)
        && (run[|run| - 1].0 in mid.engines ==> Allowed(Loaded(mid, run[|run| - 1].0), run[|run| - 1].1))
        && w' == WorldStep(mid, run[|run| - 1].0, run[|run| - 1].1)
  }

  ghost predicate FreshWorld(w: World) {
    w.processBytes == 0 && w.processSlots == 0 && forall i :: i in w.engines ==> w.engines[i] == Empty(0, 0)
  }

  /** Budget conservation: in every run of any engines, interleaved in any way, WorldInv holds. */
  lemma {:induction false} RunConserves(w: World, run: seq<(nat, Step)>, w': World)
    requires FreshWorld(w) && Reaches(w, run, w')
    ensures WorldInv(w')
    decreases |run|
  {
    hide WorldInv, WorldStep, Allowed, FreshWorld;
    if run == [] {
      FreshInv(w);
    } else {
      var last := run[|run| - 1];
      var mid: World :|
        && Reaches(w, run[..|run| - 1], mid)
        && (last.0 in mid.engines ==> Allowed(Loaded(mid, last.0), last.1))
        && w' == WorldStep(mid, last.0, last.1);
      RunConserves(w, run[..|run| - 1], mid);
      WorldStepConserves(mid, last.0, last.1);
    }
  }

  lemma FreshBalances()
    ensures Conserved(Empty(0, 0))
  {
    hide Sum, UploadBytes, OutgoingBytes;
    NothingWeighs();
    SumEmpty<Key>(map[]);
  }

  lemma FreshEngine()
    ensures Inv(Empty(0, 0))
  {
    hide Conserved;
    FreshBalances();
  }

  lemma NothingWeighs()
    ensures UploadBytes(map[]) == map[] && OutgoingBytes(map[]) == map[]
  {
  }

  lemma FreshInv(w: World)
    requires FreshWorld(w)
    ensures WorldInv(w)
  {
    hide Inv, Sum;
    forall i | i in w.engines
      ensures Inv(Loaded(w, i))
    {
      FreshEngine();
      assert Loaded(w, i) == Empty(0, 0);
    }
    SumZeroes(BytesOf(w.engines));
    SumZeroes(SlotsOf(w.engines));
  }

  /** Nothing is ever retained for less than nothing: all counters stay at zero or above. */
  lemma CountersNonNegative(e: State)
    requires Inv(e)
    ensures 0 <= e.ledger.bytes <= ENGINE_BYTES && 0 <= e.ledger.slots <= ENGINE_SLOTS
  {
    SumNonNegative(UploadBytes(e.uploads));
    SumNonNegative(OutgoingBytes(e.outgoing));
    SumNonNegative(e.receivers);
    SumNonNegative(e.snapshots);
  }

  /** After both halves of closing, once the client receivers and body copies in flight have
      returned, the engine holds nothing and its counters are zero. */
  lemma ClosedReturnsEverything(e: State)
    requires Inv(e) && e.uploadsClosed && e.outgoingClosed && e.receivers == map[] && e.snapshots == map[]
    ensures e.ledger.bytes == 0 && e.ledger.slots == 0 && e.uploadBytes == 0 && e.outgoingBytes == 0
  {
    SumEmpty(UploadBytes(e.uploads));
    SumEmpty(OutgoingBytes(e.outgoing));
    SumEmpty(e.receivers);
    SumEmpty(e.snapshots);
  }

  /** When all engines of the process have got there, the process counters are zero too. */
  lemma ProcessReturnsEverything(w: World)
    requires WorldInv(w)
    requires forall i :: i in w.engines ==>
               w.engines[i].uploadsClosed && w.engines[i].outgoingClosed
               && w.engines[i].receivers == map[] && w.engines[i].snapshots == map[]
    ensures w.processBytes == 0 && w.processSlots == 0
  {
    forall i | i in w.engines
      ensures w.engines[i].ledger.bytes == 0 && w.engines[i].ledger.slots == 0
    {
      ClosedReturnsEverything(Loaded(w, i));
    }
    SumZeroes(BytesOf(w.engines));
    SumZeroes(SlotsOf(w.engines));
  }
}

/**
 The ways in which the publisher's books change, and what each keeps: every payload still to be
 delivered stays in exactly one place.

 A change is a predicate on the books before and after; the functions of the protocol are matched
 with them in DeliverySteps.
 */
module DeliveryBook {
  import opened Sequences
  import opened Payloads
  import opened Delivery
  import opened DeliveryInvariant

  // --- A payload moves, its events staying as they are ---

  /** Payload id changed in numbering and whereabouts only. */
  ghost predicate Renumbered(s: Book, t: Book, id: nat) {
    && id < |s.payloads| && |t.payloads| == |s.payloads|
    && t.payloads == s.payloads[id := t.payloads[id]]
    && SameProgress(s.payloads[id], t.payloads[id])
    && t.payloads[id].nonce == s.payloads[id].nonce
    && t.payloads[id].DataOk()
  }

  lemma RenumberedKeepsOrder(s: Book, t: Book, id: nat)
    requires Renumbered(s, t, id) && InOrderOk(s) && t.payloadList == s.payloadList
    ensures InOrderOk(t) && AllSameProgress(s.payloads, t.payloads)
    ensures Drained(s) ==> Drained(t)
  {
    assert AllData(t.payloads);
    if t.payloadList != [] {
      assert SameProgress(s.payloads[First(s)], t.payloads[First(s)]);
    }
  }

  /** t is s with payload id moved from the front of the resend list to server sv. */
  ghost predicate MovedTo(s: Book, t: Book, id: nat, sv: Server) {
    && Renumbered(s, t, id)
    && !t.payloads[id].resending && t.payloads[id].Numbered(t.payloads[id].base)
    && s.resendList != [] && id == s.resendList[0] && t.resendList == s.resendList[1..]
    && sv in s.sink.endpoints && s.sink.endpoints[sv].status == Active
    && s.payloads[id].nonce !in s.sink.endpoints[sv].pending
    && t.sink == Put(s.sink, sv, Queued(s.sink.endpoints[sv], s.payloads[id].nonce, id))
    && t == s.(payloads := t.payloads, resendList := t.resendList, sink := t.sink)
  }

  lemma MovedToKeepsNonces(s: Book, t: Book, id: nat, sv: Server)
    requires NoncesOk(s) && MovedTo(s, t, id, sv)
    ensures NoncesOk(t)
  {
    forall i: nat | i < |t.payloads| ensures t.payloads[i].nonce == s.payloads[i].nonce { }
  }

  lemma MovedToHolds(s: Book, t: Book, id: nat, sv: Server)
    requires NoncesOk(s) && MovedTo(s, t, id, sv)
    ensures forall sv1, i: nat :: Holds(t, sv1, i) <==> Holds(s, sv1, i) || (sv1 == sv && i == id)
  {
    forall sv1, i: nat
      ensures Holds(t, sv1, i) <==> Holds(s, sv1, i) || (sv1 == sv && i == id)
    {
      if i < |s.payloads| {
        assert t.payloads[i].nonce == s.payloads[i].nonce;
      }
    }
  }

  lemma MovedToKeepsResendList(s: Book, t: Book, id: nat, sv: Server)
    requires ResendListOk(s) && MovedTo(s, t, id, sv)
    ensures ResendListOk(t)
  {
    assert s.resendList == [id] + t.resendList;
    forall i: nat ensures i in t.resendList <==> i in s.resendList && i != id { }
  }

  lemma MovedToKeepsPending(s: Book, t: Book, id: nat, sv: Server)
    requires NoncesOk(s) && ResendListOk(s) && PendingOk(s, {}) && PendingOnce(s) && NoneMissing(s, {})
    requires MovedTo(s, t, id, sv)
    ensures PendingOk(t, {}) && PendingOnce(t) && NoneMissing(t, {})
  {
    MovedToHolds(s, t, id, sv);
    assert id in s.resendList;
    forall i: nat | !t.shuttingDown && i < |t.payloads| && t.payloads[i].acked < |t.payloads[i].orig|
      ensures Somewhere(t, {}, i)
    {
      assert Somewhere(s, {}, i);
      if i == id {
        assert Holds(t, sv, i);
      } else if !s.payloads[i].resending {
        var sv1 :| Holds(s, sv1, i);
        assert Holds(t, sv1, i);
      }
    }
  }

  /** A resend: the payload at the front of the resend list becomes pending on one endpoint. */
  lemma MovedToKeeps(s: Book, t: Book, id: nat, sv: Server)
    requires BookOk(s, {}) && MovedTo(s, t, id, sv)
    ensures BookOk(t, {})
  {
    assert id in s.resendList;
    RenumberedKeepsOrder(s, t, id);
    MovedToKeepsNonces(s, t, id, sv);
    MovedToKeepsResendList(s, t, id, sv);
    MovedToKeepsPending(s, t, id, sv);
    QueuedKeepsTransports(s.sink, sv, s.payloads[id].nonce, id);
  }

  /** t is s with one more payload, which was floating, put on the resend list. */
  ghost predicate Pulled(s: Book, t: Book, id: nat) {
    && Renumbered(s, t, id)
    && t.payloads[id].resending && t.payloads[id].Numbered(t.payloads[id].acked)
    && t.resendList == s.resendList + [id]
    && t == s.(payloads := t.payloads, resendList := t.resendList)
  }

  lemma PulledKeepsNonces(s: Book, t: Book, id: nat)
    requires NoncesOk(s) && Pulled(s, t, id)
    ensures NoncesOk(t)
    ensures forall sv, i: nat :: Holds(t, sv, i) <==> Holds(s, sv, i)
  {
    forall i: nat | i < |s.payloads| ensures t.payloads[i].nonce == s.payloads[i].nonce { }
  }

  lemma PulledKeepsResendList(s: Book, t: Book, id: nat, floating: set<nat>)
    requires ResendListOk(s) && FloatingOk(s, floating) && id in floating && Pulled(s, t, id)
    ensures ResendListOk(t)
  {
    assert First(t) == First(s);
    assert forall i: nat :: i < |s.payloads| && i != id ==> t.payloads[i] == s.payloads[i];
    assert id !in s.resendList;
  }

  lemma PulledKeepsPending(s: Book, t: Book, id: nat, floating: set<nat>)
    requires NoncesOk(s) && PendingOk(s, floating) && PendingOnce(s) && FloatingOk(s, floating)
    requires id in floating && Pulled(s, t, id)
    ensures PendingOk(t, floating - {id}) && PendingOnce(t) && FloatingOk(t, floating - {id})
  {
    PulledKeepsNonces(s, t, id);
    assert First(t) == First(s);
    assert forall i: nat :: i < |s.payloads| && i != id ==> t.payloads[i] == s.payloads[i];
    assert forall sv :: !Holds(s, sv, id);
  }

  lemma PulledKeepsNoneMissing(s: Book, t: Book, id: nat, floating: set<nat>)
    requires NoncesOk(s) && NoneMissing(s, floating) && id in floating && Pulled(s, t, id)
    ensures NoneMissing(t, floating - {id})
  {
    PulledKeepsNonces(s, t, id);
    forall i: nat | !t.shuttingDown && i < |t.payloads| && t.payloads[i].acked < |t.payloads[i].orig|
      ensures Somewhere(t, floating - {id}, i)
    {
      if i != id {
        assert t.payloads[i] == s.payloads[i];
        assert Somewhere(s, floating, i);
        if !s.payloads[i].resending && i !in floating {
          var sv :| Holds(s, sv, i);
          assert Holds(t, sv, i);
        }
      }
    }
  }

  lemma PulledKeeps(s: Book, t: Book, id: nat, floating: set<nat>)
    requires BookOk(s, floating) && id in floating && Pulled(s, t, id)
    ensures BookOk(t, floating - {id})
  {
    RenumberedKeepsOrder(s, t, id);
    PulledKeepsNonces(s, t, id);
    PulledKeepsResendList(s, t, id, floating);
    PulledKeepsPending(s, t, id, floating);
    PulledKeepsNoneMissing(s, t, id, floating);
  }

  // --- A new payload ---

  /** t is s with the events wrapped into a new payload that is pending on server sv. */
  ghost predicate Appended(s: Book, t: Book, events: seq<Event>, sv: Server, nonce: Nonce) {
    && sv in s.sink.endpoints && s.sink.endpoints[sv].status == Active
    && nonce != "" && nonce !in s.sink.endpoints[sv].pending
    && t == s.(payloads := s.payloads + [NewPayload(events).(nonce := nonce).Transmitted()],
               payloadList := s.payloadList + [|s.payloads|],
               sink := Put(s.sink, sv, Queued(s.sink.endpoints[sv], nonce, |s.payloads|)))
  }

  lemma NewPayloadOk(events: seq<Event>, nonce: Nonce)
    ensures var q := NewPayload(events).(nonce := nonce).Transmitted();
      && q.DataOk() && q.Numbered(q.base) && q.processed == 0 && q.acked == 0 && q.orig == events
      && !q.resending && q.nonce == nonce && Deliverable(q) && !q.HasAck()
  {
    assert events[0..] == events;
  }

  lemma AppendedKeepsOrder(s: Book, t: Book, events: seq<Event>, sv: Server, nonce: Nonce)
    requires InOrderOk(s) && Drained(s) && Appended(s, t, events, sv, nonce)
    ensures InOrderOk(t) && Drained(t)
  {
    NewPayloadOk(events, nonce);
    forall i | 0 <= i < |t.payloads| ensures t.payloads[i].DataOk() {
      if i < |s.payloads| { assert s.payloads[i].DataOk(); }
    }
  }

  lemma AppendedHolds(s: Book, t: Book, events: seq<Event>, sv: Server, nonce: Nonce)
    requires NoncesOk(s) && Appended(s, t, events, sv, nonce)
    ensures forall sv1, i: nat :: Holds(t, sv1, i) <==> Holds(s, sv1, i) || (sv1 == sv && i == |s.payloads|)
  {
    assert forall i :: 0 <= i < |s.payloads| ==> t.payloads[i] == s.payloads[i];
    assert t.payloads[|s.payloads|].nonce == nonce;
  }

  lemma AppendedKeepsNonces(s: Book, t: Book, events: seq<Event>, sv: Server, nonce: Nonce)
    requires NoncesOk(s) && Appended(s, t, events, sv, nonce)
    ensures NoncesOk(t)
  {
    AppendedHolds(s, t, events, sv, nonce);
    var n := |s.payloads|;
    assert t.payloads[n].nonce == nonce;
    forall sv1, x | sv1 in t.sink.endpoints && x in t.sink.endpoints[sv1].pending
      ensures t.sink.endpoints[sv1].pending[x] < |t.payloads|
      ensures t.payloads[t.sink.endpoints[sv1].pending[x]].nonce == x
    {
      if !(sv1 == sv && x == nonce) {
        assert x in s.sink.endpoints[sv1].pending;
      }
    }
  }

  lemma AppendedKeepsResendList(s: Book, t: Book, events: seq<Event>, sv: Server, nonce: Nonce)
    requires InOrderOk(s) && ResendListOk(s) && Appended(s, t, events, sv, nonce)
    ensures ResendListOk(t)
  {
    var n := |s.payloads|;
    assert forall i :: 0 <= i < n ==> t.payloads[i] == s.payloads[i];
    assert !t.payloads[n].resending;
    assert First(t) == First(s);
  }

  lemma AppendedKeepsPending(s: Book, t: Book, events: seq<Event>, sv: Server, nonce: Nonce)
    requires InOrderOk(s) && NoncesOk(s) && PendingOk(s, {}) && PendingOnce(s) && NoneMissing(s, {})
    requires Appended(s, t, events, sv, nonce)
    ensures PendingOk(t, {}) && PendingOnce(t) && NoneMissing(t, {})
  {
    NewPayloadOk(events, nonce);
    AppendedHolds(s, t, events, sv, nonce);
    var n := |s.payloads|;
    assert forall i :: 0 <= i < n ==> t.payloads[i] == s.payloads[i];
    assert First(t) == First(s);
    assert forall sv1 :: !Holds(s, sv1, n);
    forall i: nat | !t.shuttingDown && i < |t.payloads| && t.payloads[i].acked < |t.payloads[i].orig|
      ensures Somewhere(t, {}, i)
    {
      if i == n {
        assert Holds(t, sv, n);
      } else {
        assert Somewhere(s, {}, i);
        if !s.payloads[i].resending {
          var sv1 :| Holds(s, sv1, i);
          assert Holds(t, sv1, i);
        }
      }
    }
  }

  lemma QueuedKeepsTransports(k: Sink, sv: Server, nonce: Nonce, id: nat)
    requires TransportsOk(k) && sv in k.endpoints && k.endpoints[sv].status == Active
    ensures TransportsOk(Put(k, sv, Queued(k.endpoints[sv], nonce, id)))
  {
  }

  lemma AppendedKeeps(s: Book, t: Book, events: seq<Event>, sv: Server, nonce: Nonce)
    requires BookOk(s, {}) && Drained(s) && Appended(s, t, events, sv, nonce)
    ensures BookOk(t, {}) && Drained(t)
  {
    AppendedKeepsOrder(s, t, events, sv, nonce);
    AppendedKeepsNonces(s, t, events, sv, nonce);
    AppendedKeepsResendList(s, t, events, sv, nonce);
    AppendedKeepsPending(s, t, events, sv, nonce);
    QueuedKeepsTransports(s.sink, sv, nonce, |s.payloads|);
  }

  // --- Endpoints change status ---

  ghost predicate SamePending(k: Sink, l: Sink) {
    && (forall sv :: sv in k.endpoints ==> sv in l.endpoints)
    && (forall sv :: sv in l.endpoints ==>
          if sv in k.endpoints
          then l.endpoints[sv].pending == k.endpoints[sv].pending
            && l.endpoints[sv].numPayloads == k.endpoints[sv].numPayloads
          else l.endpoints[sv].pending == map[] && l.endpoints[sv].numPayloads == 0)
  }

  lemma SameHoldsKeeps(s: Book, t: Book)
    requires NoncesOk(s) && PlacesOk(s, {}) && SamePending(s.sink, t.sink)
    requires t.payloads == s.payloads && t.payloadList == s.payloadList && t.resendList == s.resendList
    requires s.shuttingDown ==> t.shuttingDown
    ensures NoncesOk(t) && PlacesOk(t, {})
  {
    assert forall sv, id: nat :: Holds(t, sv, id) <==> Holds(s, sv, id);
    forall i: nat | !t.shuttingDown && i < |t.payloads| && t.payloads[i].acked < |t.payloads[i].orig|
      ensures Somewhere(t, {}, i)
    {
      assert Somewhere(s, {}, i);
      if !s.payloads[i].resending {
        var sv1 :| Holds(s, sv1, i);
        assert Holds(t, sv1, i);
      }
    }
  }

  ghost predicate SinkOk(k: Sink) {
    ListsMatchStatus(k) && TransportsOk(k) && PendingCounted(k)
  }

  lemma ShutdownEndpointOk(k: Sink, sv: Server)
    requires SinkOk(k)
    ensures SamePending(k, ShutdownEndpoint(k, sv)) && TransportsOk(ShutdownEndpoint(k, sv))
  {
  }

  lemma AddEndpointOk(k: Sink, sv: Server)
    requires SinkOk(k) && sv !in k.endpoints
    ensures SamePending(k, AddEndpoint(k, sv)) && TransportsOk(AddEndpoint(k, sv))
  {
  }

  lemma ActivateOk(k: Sink, sv: Server)
    requires SinkOk(k) && sv in k.endpoints
    ensures SamePending(k, Activate(k, sv)) && TransportsOk(Activate(k, sv))
  {
  }

  lemma MoveFailedOk(k: Sink, sv: Server)
    requires SinkOk(k) && sv in k.endpoints
    ensures SamePending(k, MoveFailed(k, sv)) && TransportsOk(MoveFailed(k, sv))
  {
  }

  lemma RecoverFailedOk(k: Sink, sv: Server)
    requires SinkOk(k) && sv in k.endpoints
    ensures SamePending(k, RecoverFailed(k, sv)) && TransportsOk(RecoverFailed(k, sv))
  {
  }

  /** A closing endpoint whose transport is running and on which nothing is pending. */
  lemma ShutdownTransportOk(k: Sink, sv: Server)
    requires SinkOk(k) && sv in k.endpoints && k.endpoints[sv].shutdowns == 0
    requires k.endpoints[sv].status == Closing && k.endpoints[sv].numPayloads <= 0
    ensures var l := Put(k, sv, ShutdownTransport(k.endpoints[sv]));
      SamePending(k, l) && TransportsOk(l)
  {
    assert k.endpoints[sv].pending == map[];
  }

  /** Any change of statuses and lists keeps the books when the transports stay in order. */
  lemma SinkChangeKeeps(s: Book, t: Book)
    requires BookOk(s, {}) && SamePending(s.sink, t.sink) && TransportsOk(t.sink)
    requires t == s.(sink := t.sink, shuttingDown := t.shuttingDown) && (s.shuttingDown ==> t.shuttingDown)
    ensures BookOk(t, {})
    ensures Drained(s) ==> Drained(t)
  {
    SameHoldsKeeps(s, t);
    assert First(t) == First(s);
  }

  // --- An endpoint loses what is pending on it ---

  /** t is s with nothing pending on server sv any more. */
  ghost predicate Emptied(s: Book, t: Book, sv: Server) {
    && t == s.(sink := t.sink)
    && sv in s.sink.endpoints
    && t.sink.endpoints.Keys <= s.sink.endpoints.Keys
    && (forall x :: x in s.sink.endpoints && x != sv ==>
          && x in t.sink.endpoints
          && t.sink.endpoints[x].pending == s.sink.endpoints[x].pending
          && t.sink.endpoints[x].numPayloads == s.sink.endpoints[x].numPayloads)
    && (sv in t.sink.endpoints ==> t.sink.endpoints[sv].pending == map[] && t.sink.endpoints[sv].numPayloads == 0)
  }

  lemma EmptiedHolds(s: Book, t: Book, sv: Server)
    requires Emptied(s, t, sv)
    ensures forall x, i: nat :: Holds(t, x, i) <==> Holds(s, x, i) && x != sv
  {
  }

  lemma EmptiedKeepsPlaces(s: Book, t: Book, sv: Server, floating: set<nat>)
    requires InOrderOk(s) && PlacesOk(s, {}) && Emptied(s, t, sv)
    requires forall id: nat :: id in floating <==> Holds(s, sv, id)
    ensures PlacesOk(t, floating)
  {
    EmptiedHolds(s, t, sv);
    assert First(t) == First(s);
    forall i: nat | !t.shuttingDown && i < |t.payloads| && t.payloads[i].acked < |t.payloads[i].orig|
      ensures Somewhere(t, floating, i)
    {
      assert Somewhere(s, {}, i);
      if !s.payloads[i].resending {
        var x :| Holds(s, x, i);
        assert x == sv || Holds(t, x, i);
      }
    }
  }

  lemma EmptiedKeepsNonces(s: Book, t: Book, sv: Server)
    requires NoncesOk(s) && Emptied(s, t, sv)
    ensures NoncesOk(t)
  {
    forall x | x in t.sink.endpoints
      ensures x in s.sink.endpoints
      ensures t.sink.endpoints[x].pending == map[] || t.sink.endpoints[x].pending == s.sink.endpoints[x].pending
    {
    }
  }

  /** The values of a pending map are the payloads its server holds. */
  lemma PendingValues(s: Book, sv: Server)
    requires NoncesOk(s) && sv in s.sink.endpoints
    ensures forall id: nat :: id in s.sink.endpoints[sv].pending.Values <==> Holds(s, sv, id)
  {
    var m := s.sink.endpoints[sv].pending;
    forall id: nat ensures id in m.Values <==> Holds(s, sv, id) {
      if id in m.Values {
        var x :| x in m && m[x] == id;
        assert s.payloads[id].nonce == x;
      }
    }
  }

  /** What was pending on the endpoint floats until it is put on the resend list. */
  lemma EmptiedKeeps(s: Book, t: Book, sv: Server)
    requires BookOk(s, {}) && Emptied(s, t, sv) && TransportsOk(t.sink)
    ensures BookOk(t, s.sink.endpoints[sv].pending.Values)
    ensures Drained(s) ==> Drained(t)
  {
    PendingValues(s, sv);
    EmptiedKeepsNonces(s, t, sv);
    EmptiedKeepsPlaces(s, t, sv, s.sink.endpoints[sv].pending.Values);
    assert First(t) == First(s);
  }

  /** Nothing floats when nothing was pending; and nothing needs to be found once shutting down. */
  lemma NothingFloats(s: Book, floating: set<nat>)
    requires BookOk(s, floating) && (s.shuttingDown || floating == {})
    ensures BookOk(s, {})
  {
  }

  lemma FailedEmptyOk(k: Sink, sv: Server)
    requires SinkOk(k) && sv in k.endpoints && k.endpoints[sv].status == Active
    ensures SinkOk(FailedEmpty(k, sv))
  {
  }

  lemma RemoveEndpointOk(k: Sink, sv: Server)
    requires SinkOk(k) && sv in k.endpoints
    ensures TransportsOk(RemoveEndpoint(k, sv))
  {
  }

  // --- An acknowledgement ---

  /** q is what an acknowledgement that covers `lines` more events makes of p, a payload pending somewhere. */
  ghost predicate Answers(p: Payload, q: Payload, lines: int, full: bool) {
    && q.DataOk() && q.orig == p.orig && q.processed == p.processed && q.nonce == p.nonce
    && q.resending == p.resending
    && lines == q.acked - p.acked
    && (q.acked < |q.orig| ==> !full)
    && (!full ==> q.Numbered(q.base) && Deliverable(q))
  }

  lemma PendingAck(p: Payload, sequence: int)
    requires p.DataOk() && p.Numbered(p.base) && Deliverable(p) && 0 <= sequence
    ensures Answers(p, p.Ack(sequence), p.AckLines(sequence), p.AckFull(sequence))
  {
    var q := p.Ack(sequence);
    if sequence <= p.lastSequence {
      assert q == p;
    } else if sequence >= p.sequenceLen {
      assert q.acked == |p.orig|;
    } else {
      assert q.acked == p.base + sequence;
    }
  }

  /** t is s after payload id, pending on sv, became q; it is no longer pending when it was `full`. */
  ghost predicate Acked(s: Book, t: Book, sv: Server, id: nat, full: bool) {
    && Holds(s, sv, id)
    && |t.payloads| == |s.payloads| && t.payloads == s.payloads[id := t.payloads[id]]
    && t.payloads[id].nonce == s.payloads[id].nonce
    && t == s.(payloads := t.payloads, sink := t.sink)
    && (if full
        then t.sink == Put(s.sink, sv, s.sink.endpoints[sv].(
                             pending := s.sink.endpoints[sv].pending - {s.payloads[id].nonce},
                             numPayloads := s.sink.endpoints[sv].numPayloads - 1))
        else t.sink == s.sink)
  }

  lemma RemovingOne(m: map<Nonce, nat>, x: Nonce)
    requires x in m
    ensures |m - {x}| == |m| - 1
  {
    assert (m - {x}).Keys == m.Keys - {x};
  }

  /** What a map of pending payloads keeps when one nonce leaves it. */
  lemma AckedPending(s: Book, t: Book, sv: Server, id: nat, full: bool, x: Server, y: Nonce)
    requires Acked(s, t, sv, id, full) && x in s.sink.endpoints
    ensures x in t.sink.endpoints
    ensures y in t.sink.endpoints[x].pending <==>
      y in s.sink.endpoints[x].pending && !(full && x == sv && y == s.payloads[id].nonce)
    ensures y in t.sink.endpoints[x].pending ==> t.sink.endpoints[x].pending[y] == s.sink.endpoints[x].pending[y]
  {
  }

  ghost predicate NoncesUnchanged(s: Book, t: Book) {
    |s.payloads| == |t.payloads| && forall i :: 0 <= i < |s.payloads| ==> s.payloads[i].nonce == t.payloads[i].nonce
  }

  lemma AckedKeepsNonces(s: Book, t: Book, sv: Server, id: nat, full: bool)
    requires NoncesOk(s) && Acked(s, t, sv, id, full)
    ensures NoncesOk(t) && NoncesUnchanged(s, t)
  {
    forall i | 0 <= i < |s.payloads| ensures t.payloads[i].nonce == s.payloads[i].nonce { }
    assert PendingCounted(t.sink) by {
      RemovingOne(s.sink.endpoints[sv].pending, s.payloads[id].nonce);
    }
    forall x, y | x in t.sink.endpoints && y in t.sink.endpoints[x].pending
      ensures t.sink.endpoints[x].pending[y] < |t.payloads|
      ensures t.payloads[t.sink.endpoints[x].pending[y]].nonce == y
    {
      AckedPending(s, t, sv, id, full, x, y);
    }
  }

  lemma AckedHoldsOne(s: Book, t: Book, sv: Server, id: nat, full: bool, x: Server, i: nat)
    requires PendingNamed(s) && Acked(s, t, sv, id, full)
    requires Holds(s, x, id) ==> x == sv
    ensures Holds(t, x, i) <==> Holds(s, x, i) && !(i == id && full)
  {
    if i < |s.payloads| && x in s.sink.endpoints {
      var y := s.payloads[i].nonce;
      assert t.payloads[i].nonce == y;
      AckedPending(s, t, sv, id, full, x, y);
      if i != id {
        assert s.sink.endpoints[sv].pending[s.payloads[id].nonce] == id;
        assert Holds(t, x, i) <==> Holds(s, x, i);
      } else {
        assert Holds(t, x, i) <==> Holds(s, x, i) && !(full && x == sv);
      }
    }
  }

  lemma AckedHolds(s: Book, t: Book, sv: Server, id: nat, full: bool)
    requires PendingNamed(s) && PendingOnce(s) && Acked(s, t, sv, id, full)
    ensures forall x, i: nat :: Holds(t, x, i) <==> Holds(s, x, i) && !(i == id && full)
  {
    forall x, i: nat ensures Holds(t, x, i) <==> Holds(s, x, i) && !(i == id && full) {
      AckedHoldsOne(s, t, sv, id, full, x, i);
    }
  }

  lemma AckedKeepsPending(s: Book, t: Book, sv: Server, id: nat, lines: int, full: bool)
    requires PendingNamed(s) && PendingOk(s, {}) && PendingOnce(s) && ResendListOk(s)
    requires Acked(s, t, sv, id, full) && Answers(s.payloads[id], t.payloads[id], lines, full)
    ensures PendingOk(t, {}) && PendingOnce(t) && ResendListOk(t)
  {
    AckedHolds(s, t, sv, id, full);
    assert First(t) == First(s);
    assert forall i: nat :: i < |s.payloads| && i != id ==> t.payloads[i] == s.payloads[i];
    assert id !in s.resendList;
  }

  lemma AckedKeepsNoneMissing(s: Book, t: Book, sv: Server, id: nat, lines: int, full: bool)
    requires PendingNamed(s) && PendingOnce(s) && NoneMissing(s, {})
    requires Acked(s, t, sv, id, full) && Answers(s.payloads[id], t.payloads[id], lines, full)
    ensures NoneMissing(t, {})
  {
    AckedHolds(s, t, sv, id, full);
    forall i: nat | !t.shuttingDown && i < |t.payloads| && t.payloads[i].acked < |t.payloads[i].orig|
      ensures Somewhere(t, {}, i)
    {
      if i == id {
        assert Holds(t, sv, i);
      } else {
        assert t.payloads[i] == s.payloads[i];
        assert Somewhere(s, {}, i);
        if !s.payloads[i].resending {
          var x :| Holds(s, x, i);
          assert Holds(t, x, i);
        }
      }
    }
  }

  lemma AckedKeepsOrder(s: Book, t: Book, sv: Server, id: nat, lines: int, full: bool)
    requires InOrderOk(s) && Acked(s, t, sv, id, full)
    requires Answers(s.payloads[id], t.payloads[id], lines, full)
    ensures InOrderOk(t)
    ensures Drained(s) && id != First(s) ==> Drained(t)
  {
    assert First(t) == First(s);
  }

  lemma AckedKeepsTransports(s: Book, t: Book, sv: Server, id: nat, full: bool)
    requires TransportsOk(s.sink) && Acked(s, t, sv, id, full)
    ensures TransportsOk(t.sink)
  {
  }

  lemma AckedKeeps(s: Book, t: Book, sv: Server, id: nat, lines: int, full: bool)
    requires BookOk(s, {}) && Acked(s, t, sv, id, full)
    requires Answers(s.payloads[id], t.payloads[id], lines, full)
    ensures BookOk(t, {})
    ensures Drained(s) && id != First(s) ==> Drained(t)
  {
    AckedKeepsOrder(s, t, sv, id, lines, full);
    AckedKeepsNonces(s, t, sv, id, full);
    AckedKeepsPending(s, t, sv, id, lines, full);
    AckedKeepsNoneMissing(s, t, sv, id, lines, full);
    AckedKeepsTransports(s, t, sv, id, full);
  }

  // --- A rollup ---

  /** t is s after the front payload, which has acknowledged events, is rolled up; it leaves the list
      when that completes it. */
  ghost predicate RolledUp(s: Book, t: Book) {
    && s.payloadList != [] && s.payloadList[0] == First(s) && 0 <= First(s) < |s.payloads|
    && (var p := s.payloads[First(s)];
        && p.HasAck()
        && t == s.(payloads := s.payloads[First(s) := p.Rollup()],
                   payloadList := if p.Rollup().Complete() then s.payloadList[1..] else s.payloadList))
  }

  /** Rolling a payload up changes nothing about its delivery. */
  lemma RollupFacts(p: Payload)
    requires p.DataOk() && p.HasAck()
    ensures var q := p.Rollup();
      && q.DataOk() && !q.HasAck() && q.orig == p.orig && q.acked == p.acked && q.base == p.base
      && q.nonce == p.nonce && q.resending == p.resending
      && q.lastSequence == p.lastSequence && q.sequenceLen == p.sequenceLen
      && p.processed < q.processed == p.acked
      && p.RolledUp() == p.orig[p.processed..q.processed]
      && (q.Complete() <==> p.acked == |p.orig|) && p.orig != []
  {
  }

  lemma RolledUpKeepsOrder(s: Book, t: Book)
    requires InOrderOk(s) && RolledUp(s, t)
    ensures InOrderOk(t)
    ensures t.payloadList == s.payloadList ==> Drained(t)
  {
    assert s.payloads[First(s)].DataOk();
    RollupFacts(s.payloads[First(s)]);
    forall i | 0 <= i < |t.payloads| ensures t.payloads[i].DataOk() {
      assert s.payloads[i].DataOk();
    }
  }

  lemma RolledUpHolds(s: Book, t: Book)
    requires RolledUp(s, t)
    ensures NoncesUnchanged(s, t)
    ensures forall sv, i: nat :: Holds(t, sv, i) <==> Holds(s, sv, i)
  {
    forall i | 0 <= i < |s.payloads| ensures t.payloads[i].nonce == s.payloads[i].nonce { }
  }

  lemma RolledUpKeepsNonces(s: Book, t: Book)
    requires NoncesOk(s) && RolledUp(s, t)
    ensures NoncesOk(t)
  {
    RolledUpHolds(s, t);
  }

  /** What the places of payloads depend on. */
  ghost predicate SameDelivery(p: Payload, q: Payload) {
    && q.orig == p.orig && q.acked == p.acked && q.base == p.base && q.resending == p.resending
    && q.lastSequence == p.lastSequence && q.sequenceLen == p.sequenceLen
  }

  lemma RolledUpSameDelivery(s: Book, t: Book)
    requires InOrderOk(s) && RolledUp(s, t)
    ensures forall i: nat :: i < |s.payloads| ==> SameDelivery(s.payloads[i], t.payloads[i])
    ensures First(t) > First(s) ==> First(t) == First(s) + 1 && !Deliverable(s.payloads[First(s)])
    ensures First(t) >= First(s)
  {
    assert s.payloads[First(s)].DataOk();
    RollupFacts(s.payloads[First(s)]);
  }

  lemma RolledUpKeepsPlaces(s: Book, t: Book)
    requires InOrderOk(s) && PlacesOk(s, {}) && RolledUp(s, t)
    ensures PlacesOk(t, {})
  {
    RolledUpHolds(s, t);
    RolledUpSameDelivery(s, t);
    assert ResendListOk(t);
    assert PendingOk(t, {});
    forall i: nat | !t.shuttingDown && i < |t.payloads| && t.payloads[i].acked < |t.payloads[i].orig|
      ensures Somewhere(t, {}, i)
    {
      assert SameDelivery(s.payloads[i], t.payloads[i]);
      assert Somewhere(s, {}, i);
      if !s.payloads[i].resending {
        var x :| Holds(s, x, i);
        assert Holds(t, x, i);
      }
    }
  }

  /** Handing over the acknowledged events of the front payload leaves every delivery as it is. */
  lemma RolledUpKeeps(s: Book, t: Book)
    requires BookOk(s, {}) && RolledUp(s, t)
    ensures BookOk(t, {})
    ensures t.payloadList == s.payloadList ==> Drained(t)
  {
    RolledUpKeepsOrder(s, t);
    RolledUpKeepsNonces(s, t);
    RolledUpKeepsPlaces(s, t);
  }
}

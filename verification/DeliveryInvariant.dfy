/**
 What every step of the acknowledgement protocol keeps.

 The invariant has five parts: the payload list is the part of the payloads not yet handed over, in
 order; every payload still to be delivered is in exactly one place; transports are shut down
 at most once and only when idle; the counters and the history agree with the payloads; and
 the payload at the front holds no acknowledged event that was not handed over.
 */
module DeliveryInvariant {
  import opened Sequences
  import opened Payloads
  import opened Delivery

  // --- What the payloads amount to ---

  /** Every event accepted into a payload, in order. */
  function Accepted(ps: seq<Payload>): seq<Event> {
    if ps == [] then [] else ps[0].orig + Accepted(ps[1..])
  }

  /** The events handed over, payload by payload. */
  function HandedOver(ps: seq<Payload>): seq<Event>
    requires AllData(ps)
  {
    if ps == [] then [] else assert ps[0].DataOk(); ps[0].orig[..ps[0].processed] + HandedOver(ps[1..])
  }

  function TotalAcked(ps: seq<Payload>): int {
    if ps == [] then 0 else ps[0].acked + TotalAcked(ps[1..])
  }

  ghost predicate AllData(ps: seq<Payload>) {
    forall i :: 0 <= i < |ps| ==> ps[i].DataOk()
  }

  /** The same events in the same state of progress; only numbering and whereabouts may differ. */
  ghost predicate SameProgress(p: Payload, q: Payload) {
    && p.orig == q.orig && p.acked == q.acked && p.processed == q.processed
    && p.ackEvents == q.ackEvents && p.events == q.events
  }

  ghost predicate AllSameProgress(ps: seq<Payload>, qs: seq<Payload>) {
    |ps| == |qs| && forall i :: 0 <= i < |ps| ==> SameProgress(ps[i], qs[i])
  }

  lemma {:induction false} SameProgressSameTotals(ps: seq<Payload>, qs: seq<Payload>)
    requires AllData(ps) && AllData(qs) && AllSameProgress(ps, qs)
    ensures Accepted(ps) == Accepted(qs) && HandedOver(ps) == HandedOver(qs)
    ensures TotalAcked(ps) == TotalAcked(qs)
  {
    if ps != [] {
      assert SameProgress(ps[0], qs[0]);
      SameProgressSameTotals(ps[1..], qs[1..]);
    }
  }

  lemma {:induction false} TotalsOfSnoc(ps: seq<Payload>, p: Payload)
    requires AllData(ps) && p.DataOk()
    ensures AllData(ps + [p])
    ensures Accepted(ps + [p]) == Accepted(ps) + p.orig
    ensures HandedOver(ps + [p]) == HandedOver(ps) + p.orig[..p.processed]
    ensures TotalAcked(ps + [p]) == TotalAcked(ps) + p.acked
  {
    var qs := ps + [p];
    if ps == [] {
      assert qs == [p];
      assert qs[1..] == [];
      assert p.orig + [] == p.orig;
    } else {
      assert qs[0] == ps[0] && qs[1..] == ps[1..] + [p];
      TotalsOfSnoc(ps[1..], p);
      var a, b := ps[0].orig, Accepted(ps[1..]);
      assert Accepted(qs) == a + (b + p.orig) == (a + b) + p.orig;
      var c, d := ps[0].orig[..ps[0].processed], HandedOver(ps[1..]);
      assert HandedOver(qs) == c + (d + p.orig[..p.processed]) == (c + d) + p.orig[..p.processed];
    }
  }

  lemma {:induction false} HandedOverOfProgress(ps: seq<Payload>, k: nat, q: Payload)
    requires AllData(ps) && k < |ps| && q.DataOk() && q.orig == ps[k].orig && 0 <= ps[k].processed <= q.processed
    requires q.processed == ps[k].processed || forall i :: k < i < |ps| ==> ps[i].processed == 0
    ensures AllData(ps[k := q])
    ensures HandedOver(ps[k := q]) == HandedOver(ps) + q.orig[ps[k].processed..q.processed]
  {
    var qs := ps[k := q];
    if k == 0 {
      var a, b := ps[0].orig[..ps[0].processed], q.orig[ps[0].processed..q.processed];
      assert qs[1..] == ps[1..] && q.orig[..q.processed] == a + b;
      if q.processed == ps[0].processed {
        assert b == [];
        assert HandedOver(qs) == HandedOver(ps) == HandedOver(ps) + [];
      } else {
        NothingHandedOver(ps[1..]);
        assert HandedOver(qs) == a + b && HandedOver(ps) == a;
      }
    } else {
      assert qs[0] == ps[0] && qs[1..] == ps[1..][k - 1 := q];
      HandedOverOfProgress(ps[1..], k - 1, q);
    }
  }

  /** Progress of one payload, all payloads after it being untouched so far. */
  lemma {:induction false} TotalsOfProgress(ps: seq<Payload>, k: nat, q: Payload)
    requires AllData(ps) && k < |ps| && q.DataOk() && q.orig == ps[k].orig && 0 <= ps[k].processed <= q.processed
    requires q.processed == ps[k].processed || forall i :: k < i < |ps| ==> ps[i].processed == 0
    ensures AllData(ps[k := q])
    ensures Accepted(ps[k := q]) == Accepted(ps)
    ensures HandedOver(ps[k := q]) == HandedOver(ps) + q.orig[ps[k].processed..q.processed]
    ensures TotalAcked(ps[k := q]) == TotalAcked(ps) + q.acked - ps[k].acked
  {
    HandedOverOfProgress(ps, k, q);
    SumsOfProgress(ps, k, q);
  }

  lemma {:induction false} SumsOfProgress(ps: seq<Payload>, k: nat, q: Payload)
    requires k < |ps| && q.orig == ps[k].orig
    ensures Accepted(ps[k := q]) == Accepted(ps)
    ensures TotalAcked(ps[k := q]) == TotalAcked(ps) + q.acked - ps[k].acked
  {
    var qs := ps[k := q];
    if k == 0 {
      assert qs[1..] == ps[1..];
    } else {
      assert qs[0] == ps[0] && qs[1..] == ps[1..][k - 1 := q];
      SumsOfProgress(ps[1..], k - 1, q);
    }
  }

  lemma {:induction false} NothingHandedOver(ps: seq<Payload>)
    requires AllData(ps) && forall i :: 0 <= i < |ps| ==> ps[i].processed == 0
    ensures HandedOver(ps) == []
  {
    if ps != [] { NothingHandedOver(ps[1..]); }
  }

  // --- The invariant ---

  /** The part of the state that says which payloads there are and where they are. */
  datatype Book = Book(
    payloads: seq<Payload>, payloadList: seq<nat>, resendList: seq<nat>, sink: Sink, shuttingDown: bool)

  function BookOf(s: State): Book {
    Book(s.payloads, s.payloadList, s.resendList, s.sink, s.shuttingDown)
  }

  /** The index of the first payload on the payload list. */
  function First(s: Book): int { |s.payloads| - |s.payloadList| }

  /** A spool without events is complete from the start but can never be handed over. */
  predicate Deliverable(p: Payload) { p.acked < |p.orig| || p.orig == [] }

  /** The payload list is the part of the payloads not yet handed over completely, in order, and only
      its front is handed over in part. */
  ghost predicate InOrderOk(s: Book) {
    && |s.payloadList| <= |s.payloads|
    && (forall i :: 0 <= i < |s.payloadList| ==> s.payloadList[i] == First(s) + i)
    && AllData(s.payloads)
    && (forall i :: 0 <= i < First(s) ==>
          s.payloads[i].processed == |s.payloads[i].orig| > 0)
    && (forall i :: First(s) < i < |s.payloads| ==> s.payloads[i].processed == 0)
    && (forall i :: First(s) <= i < |s.payloads| ==>
          s.payloads[i].processed < |s.payloads[i].orig| || s.payloads[i].orig == [])
  }

  /** Payload id is pending on server sv. */
  ghost predicate Holds(s: Book, sv: Server, id: nat) {
    && id < |s.payloads| && sv in s.sink.endpoints
    && s.payloads[id].nonce in s.sink.endpoints[sv].pending
    && s.sink.endpoints[sv].pending[s.payloads[id].nonce] == id
  }

  ghost predicate AllNamed(ps: seq<Payload>) {
    forall i :: 0 <= i < |ps| ==> ps[i].nonce != ""
  }

  /** A payload is pending under its own nonce. */
  ghost predicate PendingNamed(s: Book) {
    forall sv, x :: sv in s.sink.endpoints && x in s.sink.endpoints[sv].pending ==>
      && s.sink.endpoints[sv].pending[x] < |s.payloads|
      && s.payloads[s.sink.endpoints[sv].pending[x]].nonce == x
  }

  ghost predicate PendingCounted(k: Sink) {
    forall sv :: sv in k.endpoints ==> k.endpoints[sv].numPayloads == |k.endpoints[sv].pending|
  }

  ghost predicate NoncesOk(s: Book) {
    AllNamed(s.payloads) && PendingNamed(s) && PendingCounted(s.sink)
  }

  /** The resend list holds exactly the payloads marked for resending, renumbered from their first
      unacknowledged event. */
  ghost predicate ResendListOk(s: Book) {
    && NoDup(s.resendList)
    && (forall id: nat :: id in s.resendList <==> id < |s.payloads| && s.payloads[id].resending)
    && (forall id: nat :: id in s.resendList ==>
          First(s) <= id && Deliverable(s.payloads[id]) && s.payloads[id].Numbered(s.payloads[id].acked))
  }

  /** A payload pending on an endpoint is not on the resend list, nor being pulled back, and is still to
      be delivered. */
  ghost predicate PendingOk(s: Book, floating: set<nat>) {
    forall sv, id: nat :: Holds(s, sv, id) ==>
      && First(s) <= id && !s.payloads[id].resending && id !in floating
      && Deliverable(s.payloads[id]) && s.payloads[id].Numbered(s.payloads[id].base)
  }

  ghost predicate PendingOnce(s: Book) {
    forall sv1, sv2, id: nat :: Holds(s, sv1, id) && Holds(s, sv2, id) ==> sv1 == sv2
  }

  /** The payloads of an endpoint that is just being pulled back. */
  ghost predicate FloatingOk(s: Book, floating: set<nat>) {
    forall id: nat :: id in floating ==>
      id < |s.payloads| && First(s) <= id && !s.payloads[id].resending && Deliverable(s.payloads[id])
  }

  ghost predicate Somewhere(s: Book, floating: set<nat>, id: nat)
    requires id < |s.payloads|
  {
    s.payloads[id].resending || id in floating || exists sv :: Holds(s, sv, id)
  }

  ghost predicate NoneMissing(s: Book, floating: set<nat>) {
    !s.shuttingDown ==>
      forall id: nat :: id < |s.payloads| && s.payloads[id].acked < |s.payloads[id].orig| ==> Somewhere(s, floating, id)
  }

  /** Every undelivered payload is in one place: pending on one endpoint, on the resend list, or among
      `floating`. */
  ghost predicate PlacesOk(s: Book, floating: set<nat>) {
    && ResendListOk(s) && PendingOk(s, floating) && PendingOnce(s) && FloatingOk(s, floating)
    && NoneMissing(s, floating)
  }

  /** Counters and history agree with the payloads, but for `lines` acknowledged events and `gone`
      dropped payloads that are still to be counted. */
  ghost predicate CountersBut(s: State, lines: int, gone: int) {
    && s.numPayloads - gone == |s.payloadList| <= Max(s.maxPending, 0)
    && AllData(s.payloads)
    && s.lineCount + lines == TotalAcked(s.payloads)
    && s.released == HandedOver(s.payloads)
    && s.received == Accepted(s.payloads) + Held(s) + s.dropped
    && (!s.shuttingDown ==> s.dropped == [] && s.spoolOpen == s.nextSpool.None?)
    && (s.shuttingDown ==> s.nextSpool.None? && !s.spoolOpen)
  }

  ghost predicate CountersOk(s: State) { CountersBut(s, 0, 0) }

  ghost predicate TransportsOk(k: Sink) {
    forall sv :: sv in k.endpoints ==>
      && k.endpoints[sv].shutdowns <= 1
      && (k.endpoints[sv].shutdowns == 1 ==> k.endpoints[sv].status == Closing && k.endpoints[sv].pending == map[])
  }

  ghost predicate Drained(s: Book) {
    s.payloadList != [] ==> 0 <= First(s) < |s.payloads| && !s.payloads[First(s)].HasAck()
  }

  ghost predicate BookOk(b: Book, floating: set<nat>) {
    InOrderOk(b) && NoncesOk(b) && PlacesOk(b, floating) && TransportsOk(b.sink)
  }

  /** Everything but the counters, and but Drained, which only holds between steps. */
  ghost predicate Sound(s: State, floating: set<nat>) {
    Wf(s) && BookOk(BookOf(s), floating)
  }

  ghost predicate Inv(s: State) {
    Sound(s, {}) && CountersOk(s) && Drained(BookOf(s))
  }

  lemma EmptyBookOk(b: Book)
    requires b.payloads == [] && b.payloadList == [] && b.resendList == [] && b.sink.endpoints == map[]
    ensures InOrderOk(b) && NoncesOk(b) && TransportsOk(b.sink) && Drained(b)
    ensures ResendListOk(b) && PendingOk(b, {}) && PendingOnce(b) && FloatingOk(b, {}) && NoneMissing(b, {})
  {
    assert forall sv, id: nat :: !Holds(b, sv, id);
  }

  lemma InitInv(maxPending: int)
    ensures Inv(Init(maxPending))
  {
    EmptyBookOk(BookOf(Init(maxPending)));
  }
}

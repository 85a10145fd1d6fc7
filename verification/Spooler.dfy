/**
 The spooler (lc-lib/spooler/spooler.go): collects events into batches for the publisher.

 What the spooler waits for is given: each input, and for each wait for the publisher what comes first.
 */
module Spooler {
  import opened Sequences

  const EVENT_HEADER_SIZE := 4

  /** An encoded event of the given length. */
  datatype Event = Event(id: nat, length: nat)

  datatype Config = Config(spoolSize: nat, spoolMaxBytes: int, spoolTimeout: int)

  /** What ends a wait for the publisher to take a batch. */
  datatype Outcome = Taken | ConfigComes(config: Config, now: int) | ShutdownComes

  /** What became of a batch. */
  datatype Batch = Sent(events: seq<Event>) | Discarded(events: seq<Event>)

  datatype Input =
    | EventIn(event: Event, waits: seq<Outcome>)
    | FlushIn(waits: seq<Outcome>)
    | TimerIn(waits: seq<Outcome>)
    | ConfigIn(config: Config, waits: seq<Outcome>)
    | ShutdownIn

  function Size(events: seq<Event>): nat {
    if events == [] then 0 else Size(events[..|events| - 1]) + events[|events| - 1].length + EVENT_HEADER_SIZE
  }

  lemma SizeSnoc(events: seq<Event>, e: Event)
    ensures Size(events + [e]) == Size(events) + e.length + EVENT_HEADER_SIZE
  {
    assert (events + [e])[..|events|] == events;
  }

  /** The batches in full, those discarded included. */
  function AllOf(history: seq<Batch>): seq<Event> {
    if history == [] then [] else history[0].events + AllOf(history[1..])
  }

  lemma {:induction false} AllOfConcat(a: seq<Batch>, b: seq<Batch>)
    ensures AllOf(a + b) == AllOf(a) + AllOf(b)
  {
    if a == [] {
      assert a + b == b;
    } else {
      assert (a + b)[1..] == a[1..] + b;
      AllOfConcat(a[1..], b);
    }
  }

  /** A configuration has the batch sent at once, as the timeout has passed or the batch is full. */
  predicate FlushesAtOnce(c: Config, now: int, timerStart: int, length: nat) {
    now - timerStart >= c.spoolTimeout || length >= c.spoolSize
  }

  /** What becomes of a batch for which the publisher is waited for: a configuration that arrives meanwhile and does
      not have it sent at once makes the spooler forget it. */
  function Fate(events: seq<Event>, timerStart: int, waits: seq<Outcome>): seq<Batch>
    decreases |waits|
  {
    if waits == [] || waits[0].Taken? then [Sent(events)]
    else if waits[0].ShutdownComes? then []
    else if FlushesAtOnce(waits[0].config, waits[0].now, timerStart, |events|) then Fate(events, timerStart, waits[1..])
    else [Discarded(events)]
  }

  /** A batch that was waited for is discarded exactly when some configuration that comes before the publisher
      takes it, and before shutdown, neither finds the timeout passed nor the batch full, and all before
      it do. */
  lemma {:induction false} FateDiscards(events: seq<Event>, timerStart: int, waits: seq<Outcome>)
    ensures Fate(events, timerStart, waits) == [Discarded(events)] <==>
      exists k :: 0 <= k < |waits| && waits[k].ConfigComes?
        && !FlushesAtOnce(waits[k].config, waits[k].now, timerStart, |events|)
        && forall i :: 0 <= i < k ==>
          waits[i].ConfigComes? && FlushesAtOnce(waits[i].config, waits[i].now, timerStart, |events|)
    decreases |waits|
  {
    if waits != [] && waits[0].ConfigComes? && FlushesAtOnce(waits[0].config, waits[0].now, timerStart, |events|) {
      var rest := waits[1..];
      FateDiscards(events, timerStart, rest);
      if Fate(events, timerStart, rest) == [Discarded(events)] {
        var k :| 0 <= k < |rest| && rest[k].ConfigComes?
          && !FlushesAtOnce(rest[k].config, rest[k].now, timerStart, |events|)
          && forall i :: 0 <= i < k ==>
            rest[i].ConfigComes? && FlushesAtOnce(rest[i].config, rest[i].now, timerStart, |events|);
        assert waits[k + 1] == rest[k] && forall i :: 0 < i < k + 1 ==> waits[i] == rest[i - 1];
      }
    }
  }

  ghost predicate NoConfig(waits: seq<Outcome>) {
    forall i :: 0 <= i < |waits| ==> !waits[i].ConfigComes?
  }

  function EventOf(input: Input): seq<Event> {
    if input.EventIn? then [input.event] else []
  }

  /** The input leaves the configuration as it is. */
  ghost predicate Fixed(input: Input) {
    match input
    case EventIn(_, waits) => NoConfig(waits)
    case FlushIn(waits) => NoConfig(waits)
    case TimerIn(waits) => NoConfig(waits)
    case ConfigIn(_, _) => false
    case ShutdownIn => true
  }

  class Spooler {
    var config: Config
    var spool: seq<Event>
    /** The room the spool was made with. */
    var capacity: nat
    var bytes: int
    var timerStart: int
    var output: seq<seq<Event>>

    ghost var history: seq<Batch>
    /** Bounds that all configurations keep to. A batch of two is possible with any. */
    ghost const sizeBound: nat
    ghost const bytesBound: int

    ghost predicate Allowed(c: Config) {
      ConfigWithin(c, sizeBound, bytesBound)
    }

    ghost predicate AllowedWaits(waits: seq<Outcome>) {
      forall i :: 0 <= i < |waits| && waits[i].ConfigComes? ==> Allowed(waits[i].config)
    }

    /** A batch is within bounds. One event on its own may be of any size. */
    ghost predicate Bounded(events: seq<Event>) {
      |events| <= sizeBound && (|events| >= 2 ==> Size(events) < bytesBound)
    }

    ghost predicate Recorded()
      reads `output, `history
    {
      output == SentOf(history) && forall i :: 0 <= i < |history| ==> Bounded(history[i].events)
    }

    ghost predicate Valid()
      reads this
    {
      && Allowed(config) && 2 <= sizeBound
      && (|spool| < capacity || |spool| == capacity <= 1) && capacity <= sizeBound
      && bytes == Size(spool) && Bounded(spool) && Recorded()
    }

    constructor (config: Config, now: int, sizeBound: nat, bytesBound: int)
      requires 2 <= sizeBound && ConfigWithin(config, sizeBound, bytesBound)
      ensures Valid() && spool == [] && output == [] && history == [] && this.config == config
      ensures this.sizeBound == sizeBound && this.bytesBound == bytesBound && capacity == config.spoolSize
    {
      this.sizeBound, this.bytesBound := sizeBound, bytesBound;
      this.config, spool, capacity, bytes, timerStart, output := config, [], config.spoolSize, 0, now, [];
      history := [];
    }

    /** Waits for the publisher to take the spool, or for something else. Also returns what is left of what
        is to come. */
    method SendSpool(waits: seq<Outcome>) returns (ok: bool, rest: seq<Outcome>)
      requires 2 <= sizeBound && Allowed(config) && AllowedWaits(waits) && Bounded(spool) && Recorded()
      modifies this
      ensures Allowed(config) && Recorded() && |rest| <= |waits| && AllowedWaits(rest)
      ensures history == old(history) + Fate(old(spool), old(timerStart), waits)
      ensures ok ==> Valid() && spool == []
      ensures ok <==> Fate(old(spool), old(timerStart), waits) != []
      ensures NoConfig(waits) ==> config == old(config) && NoConfig(rest)
      decreases |waits|, 0
    {
      if waits == [] || waits[0].Taken? {
        Deliver();
        rest := if waits == [] then [] else waits[1..];
      } else if waits[0].ShutdownComes? {
        return false, waits[1..];
      } else {
        ghost var flushes := FlushesAtOnce(waits[0].config, waits[0].now, timerStart, |spool|);
        ok, rest := ReloadConfig(waits[0].config, waits[0].now, waits[1..]);
        if !ok {
          return;
        }
        if !flushes {
          Forget();
        }
      }
      spool, capacity, bytes, ok := [], config.spoolSize, 0, true;
    }

    /** The publisher takes the spool. */
    method Deliver()
      requires Bounded(spool) && Recorded()
      modifies `output, `history
      ensures Recorded() && history == old(history) + [Sent(spool)]
    {
      SentOfSnoc(history, Sent(spool));
      output := output + [spool];
      history := history + [Sent(spool)];
    }

    /** History: the spool is lost. */
    ghost method Forget()
      requires Bounded(spool) && Recorded()
      modifies `history
      ensures Recorded() && history == old(history) + [Discarded(spool)]
    {
      SentOfSnoc(history, Discarded(spool));
      history := history + [Discarded(spool)];
    }

    /** A new configuration: the spool is sent at once, even if empty, when the timeout has passed or it is full. */
    method ReloadConfig(c: Config, now: int, waits: seq<Outcome>) returns (ok: bool, rest: seq<Outcome>)
      requires 2 <= sizeBound && Allowed(c) && AllowedWaits(waits) && Bounded(spool) && Recorded()
      modifies this
      ensures Allowed(config) && Recorded() && |rest| <= |waits| && AllowedWaits(rest)
      ensures FlushesAtOnce(c, now, old(timerStart), |old(spool)|) ==>
        && history == old(history) + Fate(old(spool), old(timerStart), waits)
        && (ok <==> Fate(old(spool), old(timerStart), waits) != []) && (ok ==> Valid() && spool == [])
      ensures !FlushesAtOnce(c, now, old(timerStart), |old(spool)|) ==>
        && ok && history == old(history) && spool == old(spool) && rest == waits && bytes == old(bytes)
        && capacity == old(capacity) && config == c
      decreases |waits|, 1
    {
      config := c;
      if now - timerStart >= config.spoolTimeout || |spool| >= config.spoolSize {
        ok, rest := SendSpool(waits);
        if !ok {
          return;
        }
        timerStart := now;
      } else {
        ok, rest := true, waits;
      }
    }

    /** The spool goes to the publisher, and the timer starts again. */
    method Flush(waits: seq<Outcome>, now: int) returns (ok: bool)
      requires Valid() && AllowedWaits(waits)
      modifies this
      ensures Allowed(config) && Recorded()
      ensures history == old(history) + Fate(old(spool), old(timerStart), waits)
      ensures ok ==> Valid() && spool == [] && timerStart == now
      ensures ok <==> Fate(old(spool), old(timerStart), waits) != []
      ensures NoConfig(waits) ==> config == old(config)
    {
      var rest;
      ok, rest := SendSpool(waits);
      if ok {
        timerStart := now;
      }
    }

    /** The room after one more event is appended. A spool that has none left is moved to one twice as large, which can
        only be when it was made for one event, or none. */
    function Room(): nat
      reads `spool, `capacity
    {
      if |spool| < capacity then capacity else if capacity == 0 then 1 else 2 * capacity
    }

    /** One more event fills the spool. */
    predicate Fills()
      reads `spool, `capacity
    {
      |spool| + 1 >= Room()
    }

    method Add(event: Event)
      requires Valid() && (|spool| > 0 ==> bytes + event.length + EVENT_HEADER_SIZE < config.spoolMaxBytes)
      modifies `bytes, `spool, `capacity
      ensures spool == old(spool) + [event] && bytes == Size(spool) && Bounded(spool) && capacity == old(Room())
    {
      SizeSnoc(spool, event);
      capacity := Room();
      bytes := bytes + event.length + EVENT_HEADER_SIZE;
      spool := spool + [event];
    }

    /** The event would bring the spool to the maximum of bytes. */
    predicate Overflows(event: Event)
      reads `spool, `bytes, `config
    {
      |spool| > 0 && bytes + event.length + EVENT_HEADER_SIZE >= config.spoolMaxBytes
    }

    /** What an event has sent, or discarded. */
    ghost function Dispatched(event: Event, waits: seq<Outcome>): seq<Batch>
      reads this
    {
      if Overflows(event) then Fate(spool, timerStart, waits)
      else if Fills() then Fate(spool + [event], timerStart, waits)
      else []
    }

    /** Shutdown comes while the event has the publisher waited for. */
    ghost predicate StopsAt(event: Event, waits: seq<Outcome>)
      reads this
    {
      (Overflows(event) || Fills()) && Dispatched(event, waits) == []
    }

    /** What is in the spool after an event. */
    ghost function Left(event: Event): seq<Event>
      reads this
    {
      if Overflows(event) then [event] else if Fills() then [] else spool + [event]
    }

    method FlushThenAdd(event: Event, waits: seq<Outcome>, now: int) returns (ok: bool)
      requires Valid() && AllowedWaits(waits)
      modifies this
      ensures Recorded() && history == old(history) + Fate(old(spool), old(timerStart), waits)
      ensures ok <==> Fate(old(spool), old(timerStart), waits) != []
      ensures ok ==> Valid() && spool == [event]
      ensures !ok ==> history == old(history)
      ensures NoConfig(waits) ==> config == old(config)
    {
      ok := Flush(waits, now);
      if ok {
        Add(event);
      }
    }

    method AddThenFlush(event: Event, waits: seq<Outcome>, now: int) returns (ok: bool)
      requires Valid() && AllowedWaits(waits) && !Overflows(event)
      modifies this
      ensures Recorded()
      ensures if old(Fills())
        then history == old(history) + Fate(old(spool) + [event], old(timerStart), waits)
        else history == old(history)
      ensures ok <==> !old(Fills()) || Fate(old(spool) + [event], old(timerStart), waits) != []
      ensures ok ==> Valid() && spool == if old(Fills()) then [] else old(spool) + [event]
      ensures NoConfig(waits) ==> config == old(config)
    {
      Add(event);
      ok := true;
      if |spool| >= capacity {
        var rest;
        ok, rest := SendSpool(waits);
        if ok {
          timerStart := now;
        }
      }
    }

    /** An event comes in. It does not go into a spool that it would bring to the maximum of bytes; and
        a spool that it fills is sent. */
    method Receive(event: Event, waits: seq<Outcome>, now: int) returns (ok: bool)
      requires Valid() && AllowedWaits(waits)
      modifies this
      ensures Recorded() && history == old(history) + old(Dispatched(event, waits))
      ensures ok ==> Valid() && spool == old(Left(event))
      ensures ok <==> !old(StopsAt(event, waits))
      ensures NoConfig(waits) ==> config == old(config)
    {
      ghost var dispatched, left := Dispatched(event, waits), Left(event);
      if Overflows(event) {
        ok := FlushThenAdd(event, waits, now);
      } else {
        ok := AddThenFlush(event, waits, now);
        assert dispatched == [] ==> history + dispatched == history;
      }
    }

    /** What an input has sent, or discarded. */
    ghost function DispatchedBy(input: Input, now: int): seq<Batch>
      reads this
    {
      match input
      case EventIn(event, waits) => Dispatched(event, waits)
      case FlushIn(waits) => if spool == [] then [] else Fate(spool, timerStart, waits)
      case TimerIn(waits) => if spool == [] then [] else Fate(spool, timerStart, waits)
      case ConfigIn(c, waits) =>
        if FlushesAtOnce(c, now, timerStart, |spool|) then Fate(spool, timerStart, waits) else []
      case ShutdownIn => []
    }

    ghost function LeftBy(input: Input, now: int): seq<Event>
      reads this
    {
      match input
      case EventIn(event, waits) => Left(event)
      case FlushIn(_) => []
      case TimerIn(_) => []
      case ConfigIn(c, _) => if FlushesAtOnce(c, now, timerStart, |spool|) then [] else spool
      case ShutdownIn => spool
    }

    /** Sends what there is, if anything. */
    method SendAny(waits: seq<Outcome>) returns (ok: bool)
      requires Valid() && AllowedWaits(waits)
      modifies this
      ensures Recorded()
      ensures history == old(history) + if old(spool) == [] then [] else Fate(old(spool), old(timerStart), waits)
      ensures ok ==> Valid() && spool == []
      ensures ok <==> old(spool) == [] || Fate(old(spool), old(timerStart), waits) != []
      ensures NoConfig(waits) ==> config == old(config)
    {
      ok := true;
      if |spool| > 0 {
        var rest;
        ok, rest := SendSpool(waits);
      }
    }

    /** One turn of the spooler's loop; the outcome says whether to go on. */
    method Step(input: Input, now: int) returns (ok: bool)
      requires Valid() && AllowedInput(input)
      modifies this
      ensures Recorded() && history == old(history) + old(DispatchedBy(input, now))
      ensures ok ==> Valid() && spool == old(LeftBy(input, now))
      ensures ok ==> AllOf(old(DispatchedBy(input, now))) + spool == old(spool) + EventOf(input)
      ensures (ok <==> !old(Stops(input, now))) && (!ok ==> old(DispatchedBy(input, now)) == [])
      ensures Fixed(input) ==> config == old(config)
    {
      if !Stops(input, now) {
        Accounts(input, now);
      }
      match input {
        case EventIn(event, waits) => ok := Receive(event, waits, now);
        case FlushIn(waits) => ok := SendAny(waits);
        case TimerIn(waits) =>
          ok := SendAny(waits);
          timerStart := now;
        case ConfigIn(c, waits) =>
          var rest;
          ok, rest := ReloadConfig(c, now, waits);
        case ShutdownIn =>
          ok := false;
      }
    }

    /** Shutdown comes while the input has the publisher waited for. */
    ghost predicate Stops(input: Input, now: int)
      reads this
    {
      match input
      case EventIn(event, waits) => StopsAt(event, waits)
      case FlushIn(waits) => spool != [] && Fate(spool, timerStart, waits) == []
      case TimerIn(waits) => spool != [] && Fate(spool, timerStart, waits) == []
      case ConfigIn(c, waits) => FlushesAtOnce(c, now, timerStart, |spool|) && Fate(spool, timerStart, waits) == []
      case ShutdownIn => true
    }

    lemma Accounts(input: Input, now: int)
      requires !Stops(input, now)
      ensures AllOf(DispatchedBy(input, now)) + LeftBy(input, now) == spool + EventOf(input)
    {
      match input
      case EventIn(event, waits) =>
        FateKeepsAll(spool, timerStart, waits);
        FateKeepsAll(spool + [event], timerStart, waits);
      case FlushIn(waits) => FateKeepsAll(spool, timerStart, waits);
      case TimerIn(waits) => FateKeepsAll(spool, timerStart, waits);
      case ConfigIn(c, waits) => FateKeepsAll(spool, timerStart, waits);
    }

    /** A fixed configuration has every batch sent, and none empty. */
    lemma FixedSends(input: Input, now: int)
      requires Fixed(input)
      ensures AllSent(DispatchedBy(input, now))
    {
    }

    /** An empty batch is sent only for a new configuration that finds the spool empty, and the timeout passed or the
        spool full even so; and then it is, if the publisher takes it. */
    lemma EmptyBatches(input: Input, now: int)
      requires Valid() && AllowedInput(input)
      ensures Sent([]) in DispatchedBy(input, now) ==>
        input.ConfigIn? && spool == [] && FlushesAtOnce(input.config, now, timerStart, 0)
      ensures input.ConfigIn? && input.waits == [] && spool == [] && FlushesAtOnce(input.config, now, timerStart, 0) ==>
        DispatchedBy(input, now) == [Sent([])]
    {
      var n := |spool|;
      match input
      case EventIn(event, waits) =>
        FateIsOne(spool, timerStart, waits);
        FateIsOne(spool + [event], timerStart, waits);
      case FlushIn(waits) => FateIsOne(spool, timerStart, waits);
      case TimerIn(waits) => FateIsOne(spool, timerStart, waits);
      case ConfigIn(c, waits) => FateIsOne(spool, timerStart, waits);
      case ShutdownIn =>
    }

    ghost predicate AllowedInput(input: Input) {
      match input
      case EventIn(_, waits) => AllowedWaits(waits)
      case FlushIn(waits) => AllowedWaits(waits)
      case TimerIn(waits) => AllowedWaits(waits)
      case ConfigIn(c, waits) => Allowed(c) && AllowedWaits(waits)
      case ShutdownIn => true
    }
  }

  lemma {:induction false} FateIsOne(events: seq<Event>, timerStart: int, waits: seq<Outcome>)
    ensures var fate := Fate(events, timerStart, waits);
      fate == [] || fate == [Sent(events)] || fate == [Discarded(events)]
    decreases |waits|
  {
    if waits != [] && waits[0].ConfigComes? {
      FateIsOne(events, timerStart, waits[1..]);
    }
  }

  lemma {:induction false} FateKeepsAll(events: seq<Event>, timerStart: int, waits: seq<Outcome>)
    ensures Fate(events, timerStart, waits) == [] || AllOf(Fate(events, timerStart, waits)) == events
    decreases |waits|
  {
    if waits != [] && waits[0].ConfigComes? {
      FateKeepsAll(events, timerStart, waits[1..]);
    }
    assert AllOf([Sent(events)]) == events + [] && AllOf([Discarded(events)]) == events + [];
  }

  function SentOf(history: seq<Batch>): seq<seq<Event>> {
    if history == [] then []
    else
      var last := history[|history| - 1];
      SentOf(history[..|history| - 1]) + if last.Sent? then [last.events] else []
  }

  lemma SentOfSnoc(history: seq<Batch>, b: Batch)
    ensures SentOf(history + [b]) == SentOf(history) + if b.Sent? then [b.events] else []
  {
    assert (history + [b])[..|history|] == history;
  }

  ghost predicate AllSent(history: seq<Batch>) {
    forall i :: 0 <= i < |history| ==> history[i].Sent? && history[i].events != []
  }

  lemma {:induction false} AllSentIsAll(history: seq<Batch>)
    requires AllSent(history)
    ensures Flatten(SentOf(history)) == AllOf(history)
    ensures forall i :: 0 <= i < |SentOf(history)| ==> SentOf(history)[i] != []
    decreases |history|
  {
    if history != [] {
      var init, last := history[..|history| - 1], history[|history| - 1];
      assert history == init + [last];
      AllSentIsAll(init);
      SentOfSnoc(init, last);
      FlattenSnoc(SentOf(init), last.events);
      AllOfConcat(init, [last]);
      assert AllOf([last]) == last.events + [];
    }
  }

  function EventsOf(inputs: seq<Input>): seq<Event> {
    if inputs == [] then [] else EventsOf(inputs[..|inputs| - 1]) + EventOf(inputs[|inputs| - 1])
  }

  lemma EventsOfSnoc(inputs: seq<Input>, k: nat)
    requires k < |inputs|
    ensures EventsOf(inputs[..k + 1]) == EventsOf(inputs[..k]) + EventOf(inputs[k])
  {
    assert inputs[..k + 1][..k] == inputs[..k];
  }

  /** The spooler's loop, up to the input that stops it. All batches together, with the spool, are the events that
      came in, in order; and while the configuration stays as it is, every batch is sent and none is
      empty. */
  method Run(config: Config, start: int, inputs: seq<Input>, times: nat -> int, sizeBound: nat, bytesBound: int)
    returns (spooler: Spooler, n: nat)
    requires 2 <= sizeBound && ConfigWithin(config, sizeBound, bytesBound)
    requires forall i :: 0 <= i < |inputs| ==> InputWithin(inputs[i], sizeBound, bytesBound)
    ensures spooler.Recorded() && spooler.sizeBound == sizeBound && spooler.bytesBound == bytesBound && n <= |inputs|
    ensures n == |inputs| ==> spooler.Valid() && AllOf(spooler.history) + spooler.spool == EventsOf(inputs)
    ensures n < |inputs| ==> AllOf(spooler.history) <= EventsOf(inputs[..n])
    ensures (forall i :: 0 <= i < |inputs| ==> Fixed(inputs[i])) ==>
      && Flatten(spooler.output) == AllOf(spooler.history)
      && forall i :: 0 <= i < |spooler.output| ==> spooler.output[i] != []
  {
    spooler := new Spooler(config, start, sizeBound, bytesBound);
    n := 0;
    ghost var fixed := forall i :: 0 <= i < |inputs| ==> Fixed(inputs[i]);
    var ok := true;
    while n < |inputs|
      invariant n <= |inputs| && fresh(spooler)
      invariant spooler.sizeBound == sizeBound && spooler.bytesBound == bytesBound
      invariant spooler.Valid() && AllOf(spooler.history) + spooler.spool == EventsOf(inputs[..n])
      invariant fixed ==> AllSent(spooler.history)
    {
      EventsOfSnoc(inputs, n);
      ok := Take(spooler, inputs[n], times(n));
      if !ok {
        break;
      }
      n := n + 1;
    }
    assert inputs[..|inputs|] == inputs;
    if fixed {
      AllSentIsAll(spooler.history);
    }
  }

  ghost predicate InputWithin(input: Input, sizeBound: nat, bytesBound: int) {
    && (input.ConfigIn? ==> ConfigWithin(input.config, sizeBound, bytesBound))
    && (!input.ShutdownIn? ==> forall i :: 0 <= i < |input.waits| && input.waits[i].ConfigComes? ==>
          ConfigWithin(input.waits[i].config, sizeBound, bytesBound))
  }

  ghost predicate ConfigWithin(c: Config, sizeBound: nat, bytesBound: int) {
    c.spoolSize <= sizeBound && c.spoolMaxBytes <= bytesBound
  }

  /** While a batch waits for the publisher, a configuration arrives, which changes nothing: the batch is forgotten. */
  method DiscardExample(event: Event) returns (spooler: Spooler)
    ensures fresh(spooler) && spooler.history == [Discarded([event])]
    ensures spooler.output == [] && spooler.spool == []
  {
    spooler := new Spooler(Config(10, 1000, 5), 0, 10, 1000);
    var ok := spooler.Step(EventIn(event, []), 0);
    ForgetSpool(spooler, event);
  }

  method ForgetSpool(spooler: Spooler, event: Event)
    requires spooler.Valid() && spooler.spool == [event] && spooler.history == []
    requires spooler.config.spoolTimeout > 0 && spooler.config.spoolSize > 1
    modifies spooler
    ensures spooler.history == [Discarded([event])] && spooler.output == [] && spooler.spool == []
  {
    var waits := [ConfigComes(spooler.config, spooler.timerStart)];
    assert Fate([event], spooler.timerStart, waits) == [Discarded([event])];
    var ok := spooler.Step(FlushIn(waits), 0);
    assert spooler.history == [Discarded([event])];
    SentOfSnoc([], Discarded([event]));
    assert [] + [Discarded([event])] == spooler.history;
  }

  /** One turn, with what it does to the batches as a whole. */
  method Take(spooler: Spooler, input: Input, now: int) returns (ok: bool)
    requires spooler.Valid() && InputWithin(input, spooler.sizeBound, spooler.bytesBound)
    modifies spooler
    ensures spooler.Recorded()
    ensures ok ==> spooler.Valid()
    ensures ok ==>
      AllOf(spooler.history) + spooler.spool == (AllOf(old(spooler.history)) + old(spooler.spool)) + EventOf(input)
    ensures !ok ==> spooler.history == old(spooler.history)
    ensures Fixed(input) && AllSent(old(spooler.history)) ==> AllSent(spooler.history)
  {
    ghost var before, spool := spooler.history, spooler.spool;
    ghost var dispatched := spooler.DispatchedBy(input, now);
    if Fixed(input) {
      spooler.FixedSends(input, now);
    }
    ok := spooler.Step(input, now);
    if ok {
      Appended(before, spool, dispatched, spooler.spool, EventOf(input));
    } else {
      assert before + dispatched == before;
    }
  }

  lemma Appended(before: seq<Batch>, spool: seq<Event>, dispatched: seq<Batch>, left: seq<Event>, e: seq<Event>)
    requires AllOf(dispatched) + left == spool + e
    ensures AllOf(before + dispatched) + left == (AllOf(before) + spool) + e
  {
    AllOfConcat(before, dispatched);
    assert (AllOf(before) + AllOf(dispatched)) + left == AllOf(before) + (AllOf(dispatched) + left);
    assert AllOf(before) + (spool + e) == (AllOf(before) + spool) + e;
  }
}

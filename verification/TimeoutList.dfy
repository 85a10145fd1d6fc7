/**
 The timeouts of the endpoint sink (lc-lib/endpoint/sink_timeout.go): a list kept in the order in which they
 are due, which callbacks may change while it is being worked off.

 The list itself is a sequence here. The clock is given, and so is what a callback does to timeouts.
 */
module TimeoutList {
  import opened Sequences

  class Timeout {
    var timeoutDue: int
    /** Whether there is a callback. */
    var armed: bool
    /** Numbers the registrations. */
    ghost var stamp: nat

    constructor ()
      ensures !armed
    {
      timeoutDue, armed, stamp := 0, false, 0;
    }
  }

  datatype Op = Register(timeout: Timeout, due: int) | Clear(timeout: Timeout)

  /** A turn of the loop that processes timeouts: what the callback does, and the time after it. */
  datatype Turn = Turn(ops: seq<Op>, now: int)

  /** The timeouts that the callbacks register or clear. */
  ghost function Targets(turns: seq<Turn>): set<Timeout> {
    set i, o | 0 <= i < |turns| && o in turns[i].ops :: o.timeout
  }

  /** No callback touches a timeout. */
  ghost predicate Idle(turns: seq<Turn>) {
    forall i :: 0 <= i < |turns| ==> turns[i].ops == []
  }

  /** When the timeouts are due. */
  ghost function DuesOf(list: seq<Timeout>): (s: seq<int>)
    reads list`timeoutDue
    ensures |s| == |list| && forall i :: 0 <= i < |s| ==> s[i] == list[i].timeoutDue
  {
    if list == [] then [] else [list[0].timeoutDue] + DuesOf(list[1..])
  }

  /** After n turns: each timeout but the first was due when it was called back; and, if there is more to do, so is
      the next. */
  ghost predicate WorkedOff(start: seq<Timeout>, dues: seq<int>, n: nat, turns: seq<Turn>, more: bool) {
    && n <= |start| == |dues| && n <= |turns|
    && (forall k :: 0 < k < n ==> dues[k] <= turns[k - 1].now)
    && (more && 0 < n < |start| ==> dues[n] <= turns[n - 1].now)
  }

  class Sink {
    var timeoutList: seq<Timeout>
    /** When the timer is set to fire. */
    var timer: Option<int>
    ghost var registered: nat

    /** Due earlier or, when due at the same time, registered earlier. */
    ghost predicate InOrder(s: Timeout, t: Timeout)
      reads s`timeoutDue, s`stamp, t`timeoutDue, t`stamp
    {
      s.timeoutDue < t.timeoutDue || (s.timeoutDue == t.timeoutDue && s.stamp < t.stamp)
    }

    /** The list is in order, holds no timeout twice, and each one on it has a callback. */
    ghost predicate Valid()
      reads this, timeoutList
    {
      && (forall i, j :: 0 <= i < j < |timeoutList| ==> InOrder(timeoutList[i], timeoutList[j]))
      && (forall t :: t in timeoutList ==> t.armed && t.stamp < registered)
      && NoDup(timeoutList)
    }

    constructor ()
      ensures Valid() && timeoutList == [] && timer == None
    {
      timeoutList, timer, registered := [], None, 0;
    }

    method ResetTimeoutTimer()
      modifies `timer
      ensures timer == if timeoutList == [] then None else Some(timeoutList[0].timeoutDue)
    {
      if |timeoutList| == 0 {
        timer := None;
      } else {
        timer := Some(timeoutList[0].timeoutDue);
      }
    }

    method ClearTimeout(timeout: Timeout)
      requires Valid()
      modifies `timeoutList
      ensures Valid() && timeoutList == Without(old(timeoutList), timeout) && timeout !in timeoutList
    {
      WithoutMembers(timeoutList, timeout);
      WithoutInOrder(timeoutList, timeout);
      if !timeout.armed {
        return;
      }
      timeoutList := Without(timeoutList, timeout);
    }

    lemma {:induction false} WithoutInOrder(list: seq<Timeout>, t: Timeout)
      requires forall i, j :: 0 <= i < j < |list| ==> InOrder(list[i], list[j])
      ensures forall i, j :: 0 <= i < j < |Without(list, t)| ==> InOrder(Without(list, t)[i], Without(list, t)[j])
    {
      if list != [] && list[0] != t {
        WithoutInOrder(list[1..], t);
        var rest := Without(list[1..], t);
        forall j | 0 <= j < |rest| ensures InOrder(list[0], rest[j]) {
          assert rest[j] in list[1..];
        }
      }
    }

    /** Registers a timeout, or registers it anew, behind all those due no later. */
    method RegisterTimeout(timeout: Timeout, due: int) returns (k: nat)
      requires Valid()
      modifies this, timeout
      ensures Valid() && timeout.armed && timeout.timeoutDue == due && registered == old(registered) + 1
      ensures var rest := Without(old(timeoutList), timeout);
        k <= |rest| && timeoutList == rest[..k] + [timeout] + rest[k..]
      ensures forall i :: 0 <= i < |timeoutList| ==> (timeoutList[i].timeoutDue <= due <==> i <= k)
      ensures timer == Some(timeoutList[0].timeoutDue)
    {
      ClearTimeout(timeout);
      Arm(timeout, due);
      k := FindPlace(due);
      Insert(timeout, k);
      ResetTimeoutTimer();
    }

    method Arm(timeout: Timeout, due: int)
      requires Valid() && timeout !in timeoutList
      modifies timeout
      ensures Valid() && timeout.armed && timeout.timeoutDue == due && timeout.stamp == registered
    {
      timeout.timeoutDue := due;
      timeout.armed := true;
      timeout.stamp := registered;
    }

    /** Where a timeout with this due time goes: behind all those due no later. */
    method FindPlace(due: int) returns (existing: nat)
      requires Valid()
      ensures existing <= |timeoutList|
      ensures forall i :: 0 <= i < |timeoutList| ==> (timeoutList[i].timeoutDue <= due <==> i < existing)
    {
      existing := 0;
      while existing < |timeoutList|
        invariant 0 <= existing <= |timeoutList|
        invariant forall i :: 0 <= i < existing ==> timeoutList[i].timeoutDue <= due
      {
        if timeoutList[existing].timeoutDue > due {
          break;
        }
        existing := existing + 1;
      }
      assert forall i :: existing < i < |timeoutList| ==> InOrder(timeoutList[existing], timeoutList[i]);
    }

    method Insert(timeout: Timeout, k: nat)
      requires Valid() && k <= |timeoutList| && timeout !in timeoutList
      requires forall i :: 0 <= i < |timeoutList| ==> (timeoutList[i].timeoutDue <= timeout.timeoutDue <==> i < k)
      requires timeout.armed && timeout.stamp == registered
      modifies `timeoutList, `registered
      ensures Valid() && registered == old(registered) + 1
      ensures timeoutList == old(timeoutList)[..k] + [timeout] + old(timeoutList)[k..]
      ensures forall i :: 0 <= i < |timeoutList| ==> (timeoutList[i].timeoutDue <= timeout.timeoutDue <==> i <= k)
    {
      registered := registered + 1;
      timeoutList := timeoutList[..k] + [timeout] + timeoutList[k..];
    }

    /** What a callback does to the timeouts. */
    method Perform(ops: seq<Op>)
      requires Valid()
      modifies this, set o | o in ops :: o.timeout
      ensures Valid() && (ops == [] ==> timeoutList == old(timeoutList))
      ensures forall t :: t in timeoutList ==> t in old(timeoutList) || exists o :: o in ops && o.timeout == t
    {
      var i := 0;
      while i < |ops|
        invariant 0 <= i <= |ops| && Valid() && (ops == [] ==> timeoutList == old(timeoutList))
        invariant forall t :: t in timeoutList ==> t in old(timeoutList) || exists o :: o in ops && o.timeout == t
      {
        assert ops[i] in ops;
        match ops[i] {
          case Register(t, due) => var k := RegisterTimeout(t, due);
          case Clear(t) => ClearTimeout(t);
        }
        i := i + 1;
      }
    }

    /** Takes the first timeout off the list, disarms it, and calls it back. */
    method Fire(ops: seq<Op>) returns (timeout: Timeout)
      requires Valid() && timeoutList != []
      modifies this, timeoutList, set o | o in ops :: o.timeout
      ensures Valid() && timeout == old(timeoutList)[0]
      ensures ops == [] ==> timeoutList == old(timeoutList)[1..] && !timeout.armed
      ensures ops == [] ==> forall t :: t in old(timeoutList) ==> t.timeoutDue == old(t.timeoutDue)
      ensures forall t :: t in timeoutList ==> t in old(timeoutList) || exists o :: o in ops && o.timeout == t
    {
      timeout := timeoutList[0];
      timeoutList := timeoutList[1..];
      if timeout.armed {
        timeout.armed := false;
        Perform(ops);
      }
    }

    /** With callbacks that leave timeouts alone: those fired so far are the first of the list, and the others are still
        on it. */
    ghost predicate Idling(start: seq<Timeout>, dues: seq<int>, fired: seq<Timeout>, turns: seq<Turn>, more: bool)
      reads `timeoutList, timeoutList`timeoutDue
    {
      && WorkedOff(start, dues, |fired|, turns, more)
      && |timeoutList| == |start| - |fired|
      && (forall i :: 0 <= i < |fired| ==> fired[i] == start[i])
      && (forall i :: 0 <= i < |timeoutList| ==>
            timeoutList[i] == start[|fired| + i] && timeoutList[i].timeoutDue == dues[|fired| + i])
    }

    /** One turn of the loop that processes timeouts. */
    method TakeTurn(turn: Turn, ghost start: seq<Timeout>, ghost dues: seq<int>, ghost fired: seq<Timeout>,
      ghost turns: seq<Turn>) returns (timeout: Timeout, more: bool)
      requires Valid() && timeoutList != [] && |fired| < |turns| && turn == turns[|fired|]
      modifies this, timeoutList, set o | o in turn.ops :: o.timeout
      ensures Valid() && timeout == old(timeoutList)[0]
      ensures more <==> timeoutList != [] && timeoutList[0].timeoutDue <= turn.now
      ensures forall t :: t in timeoutList ==> t in old(timeoutList) || exists o :: o in turn.ops && o.timeout == t
      ensures turn.ops == [] && old(Idling(start, dues, fired, turns, true)) ==>
        Idling(start, dues, fired + [timeout], turns, more)
    {
      timeout := Fire(turn.ops);
      more := timeoutList != [] && timeoutList[0].timeoutDue <= turn.now;
    }

    /** Processes timeouts: the first one in any case, as the timer has fired, and then for as long as the next
        one is due. A run of which only some turns are given ends early. When callbacks leave timeouts alone, it
        is exactly the first timeout and those behind it that are due, in order. */
    method ProcessTimeouts(turns: seq<Turn>) returns (fired: seq<Timeout>, done: bool)
      requires Valid()
      modifies this, timeoutList, Targets(turns)
      ensures Valid() && |fired| <= |turns|
      ensures old(timeoutList) == [] ==> fired == [] && timer == old(timer)
      ensures old(timeoutList) != [] && turns != [] ==> fired != [] && fired[0] == old(timeoutList)[0]
      ensures fired != [] ==> timer == if timeoutList == [] then None else Some(timeoutList[0].timeoutDue)
      ensures done && fired != [] ==>
        forall t :: t in timeoutList ==> t.timeoutDue > turns[|fired| - 1].now
      ensures Idle(turns) ==> Idling(old(timeoutList), old(DuesOf(timeoutList)), fired, turns, !done)
    {
      fired, done := [], true;
      if timeoutList == [] {
        return;
      }
      ghost var start, dues := timeoutList, DuesOf(timeoutList);
      var more := true;
      while more && |fired| < |turns|
        invariant |fired| <= |turns| && Valid() && (more ==> timeoutList != [])
        invariant fired == [] ==> timeoutList == old(timeoutList) && more
        invariant fired != [] ==> fired[0] == start[0]
        invariant forall t :: t in timeoutList ==>
          t in old(timeoutList) || t in Targets(turns)
        invariant Idle(turns) ==> Idling(start, dues, fired, turns, more)
        invariant !more && timeoutList != [] ==> timeoutList[0].timeoutDue > turns[|fired| - 1].now
        decreases |turns| - |fired|, more
      {
        var turn := turns[|fired|];
        assert forall o :: o in turn.ops ==> o.timeout in Targets(turns);
        var timeout;
        timeout, more := TakeTurn(turn, start, dues, fired, turns);
        fired := fired + [timeout];
      }
      done := !more;
      if fired != [] {
        ResetTimeoutTimer();
      }
    }
  }
}

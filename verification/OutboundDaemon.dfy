/** The daemon's own code for outbound events, each table write a step of the system. */
module OutboundDaemon {
  import opened Wrappers
  import opened OutboundDispatch

  // What becomes of one event: whether its handler asks for a native dispatch, and otherwise
  // what it decides (a handler that raises leaves the event to be retried).
  datatype Course = NoSend | Refuse | Later | Raise | Dispatch(weather: Weather)

  // Whether the dispatch could be journalled, what the engine made of it, whether that could
  // be recorded, and whether at least the failure to record it could.
  datatype Weather = Weather(journalled: bool, outcome: Outcome, recorded: bool, excused: bool)

  // The state an event is left in, and what the engine is asked on the way.
  function LeftBy(course: Course): State {
    match course
    case NoSend => Ignored
    case Refuse => Refused
    case Later => Retryable
    case Raise => Retryable
    case Dispatch(w) =>
      if !w.journalled then Retryable
      else if w.recorded then StateAfter(w.outcome)
      else if w.excused then Ambiguous
      else Dispatching
  }

  // What each course comes to, said of the state.
  predicate Becomes(course: Course, state: State) {
    match course
    case NoSend => state == Ignored
    case Refuse => state == Refused
    case Later => state == Retryable
    case Raise => state == Retryable
    case Dispatch(w) =>
      && (!w.journalled ==> state == Retryable)
      && (w.journalled && w.recorded ==>
            && (w.outcome == Accepted ==> state == Confirmed) && (w.outcome == Denied ==> state == Refused)
            && (w.outcome == Unknown ==> state == Ambiguous) && (w.outcome == NotStarted ==> state == Retryable))
      && (w.journalled && !w.recorded ==> state == if w.excused then Ambiguous else Dispatching)
  }

  // The engine is asked once, and only behind the journal.
  lemma AskedOnce(course: Course, e: EventId)
    ensures |AskedBy(course, e)| == if course.Dispatch? && course.weather.journalled then 1 else 0
    ensures forall i | i in AskedBy(course, e) ::
              course.Dispatch? && i.event == e && i.outcome == Some(course.weather.outcome)
  {}

  lemma BecomesLeft(course: Course)
    ensures Becomes(course, LeftBy(course))
  {}

  function AskedBy(course: Course, e: EventId): seq<Invocation> {
    if course.Dispatch? && course.weather.journalled then [Invocation(e, Some(course.weather.outcome))] else []
  }

  // Sets one state for all rows that are in another.
  function Update(states: map<EventId, State>, from: State, to: State): map<EventId, State> {
    map e | e in states :: if states[e] == from then to else states[e]
  }

  lemma RecoveredByUpdates(states: map<EventId, State>)
    ensures Update(Update(Update(states, Dispatching, Ambiguous), Processing, Retryable), Misfiled, Ignored)
            == Recovered(states)
  {}

  class Daemon {
    var states: map<EventId, State>
    var txns: set<TxnId>
    var lock: Option<nat>
    ghost var sys: Sys

    ghost predicate Valid()
      reads this
    {
      && Inv(sys) && sys.states == states && sys.lock == lock
      && txns == (set m | m in sys.marks :: m.txn)
    }

    // Thread `tid` is at an event of its transaction and outside the lock.
    ghost predicate Ready(tid: nat)
      reads this
    {
      Valid() && tid in sys.threads && sys.threads[tid].pc.Idle?
    }

    ghost predicate Holds(tid: nat, e: EventId)
      reads this
    {
      Valid() && tid in sys.threads && sys.threads[tid].pc == Handling(e)
    }

    constructor (misfiled: set<EventId>)
      ensures Valid() && txns == {} && lock == None && sys == Start(misfiled)
    {
      states := map e | e in misfiled :: Misfiled;
      txns, lock, sys := {}, None, Start(misfiled);
    }

    ghost method Advance(a: Action)
      requires Inv(sys) && Enabled(sys, a)
      modifies this`sys
      ensures sys == Next(old(sys), a) && Inv(sys)
    {
      StepKeepsInv(sys, a);
      sys := Next(sys, a);
    }

    // Recovery: a dispatch that was under way may have been sent, anything else was not.
    // Rows that an earlier version misfiled are put right.
    method Initialize()
      requires Valid()
      modifies this
      ensures Valid() && sys == Next(old(sys), Restart)
      ensures forall e | e in old(states) :: e in states && states[e] ==
                (if old(states)[e].Dispatching? then Ambiguous
                 else if old(states)[e].Processing? then Retryable
                 else if old(states)[e].Misfiled? then Ignored else old(states)[e])
      ensures states.Keys == old(states).Keys
      ensures txns == old(txns) && lock == None
    {
      hide Inv;
      RecoveredByUpdates(states);
      states := Update(states, Dispatching, Ambiguous);
      states := Update(states, Processing, Retryable);
      states := Update(states, Misfiled, Ignored);
      lock := None;
      Advance(Restart);
    }

    // The journal write is the point after which recovery must assume a send. The result is
    // false when the handler is left by an exception.
    method DispatchNative(tid: nat, e: EventId, weather: Weather) returns (returned: bool)
      requires Holds(tid, e)
      modifies this
      ensures Valid() && txns == old(txns) && lock == old(lock) && sys.marks == old(sys).marks
      ensures var t := old(sys).threads[tid];
        sys.threads == old(sys).threads[tid := t.(pc := if weather.journalled then Leaving(e) else Handling(e))]
      ensures returned <==> weather.journalled && weather.recorded
      ensures sys.log == old(sys).log + (if weather.journalled then [Invocation(e, Some(weather.outcome))] else [])
      ensures states == if !weather.journalled then old(states)
                        else if weather.recorded then old(states)[e := StateAfter(weather.outcome)]
                        else old(states)[e := if weather.excused then Ambiguous else Dispatching]
    {
      hide Inv;
      if !weather.journalled {
        assert sys.threads == sys.threads[tid := sys.threads[tid].(pc := Handling(e))];
        return false;
      }
      states := states[e := Dispatching];
      Advance(Journal(tid));
      Advance(Invoke(tid));
      if weather.recorded {
        states := states[e := StateAfter(weather.outcome)];
        Advance(Return(tid, weather.outcome));
        return true;
      }
      if weather.excused {
        states := states[e := Ambiguous];
      }
      Advance(Lose(tid, weather.outcome, weather.excused));
      return false;
    }

    // True lets the transaction be acknowledged; an event that is not final keeps it open.
    method ProcessOutboundEvent(tid: nat, id: Option<EventId>, course: Course) returns (ok: bool)
      requires Ready(tid) && At(sys, tid) && sys.threads[tid].events[sys.threads[tid].at] == id
      modifies this
      ensures Ready(tid) && sys.threads == old(sys).threads[tid := Passed(old(sys).threads[tid], ok)]
      ensures sys.marks == old(sys).marks && lock == old(lock)
      ensures id.None? ==> ok
      ensures id.Some? && old(lock).None? ==> (ok <==> DoneIn(states, id.value))
      ensures id.Some? && old(lock).Some? ==> !ok
      ensures id.None? || old(lock).Some? || DoneIn(old(states), id.value) ==>
                states == old(states) && sys.log == old(sys).log
      ensures id.Some? && old(lock).None? && !DoneIn(old(states), id.value) ==>
                var e := id.value;
                if e in old(states) && old(states)[e].Dispatching? then
                  states == old(states)[e := Ambiguous] && sys.log == old(sys).log
                else
                  states == old(states)[e := LeftBy(course)] && sys.log == old(sys).log + AskedBy(course, e)
      ensures id.Some? && old(lock).None? && !DoneIn(old(states), id.value)
              && !(id.value in old(states) && old(states)[id.value].Dispatching?) ==>
                id.value in states && Becomes(course, states[id.value])
    {
      hide Inv, StateAfter, Recovered;
      BecomesLeft(course);
      if id.None? {
        Advance(Skip(tid));
        return true;
      }
      var e := id.value;
      if lock.Some? {
        Advance(Busy(tid));
        return false;
      }
      if e in states && Terminal(states[e]) {
        Advance(Enter(tid));
        return true;
      }
      if e in states && states[e].Dispatching? {
        states := states[e := Ambiguous];
        Advance(Enter(tid));
        return true;
      }
      ok := TakeUp(tid, e, course);
    }

    // The lock is taken, the event handled, and the lock given up whatever happened.
    method TakeUp(tid: nat, e: EventId, course: Course) returns (ok: bool)
      requires Ready(tid) && At(sys, tid) && sys.threads[tid].events[sys.threads[tid].at] == Some(e)
      requires lock.None? && !DoneIn(states, e) && !(e in states && states[e].Dispatching?)
      modifies this
      ensures Ready(tid) && sys.threads == old(sys).threads[tid := Passed(old(sys).threads[tid], ok)]
      ensures sys.marks == old(sys).marks && lock.None?
      ensures ok <==> DoneIn(states, e)
      ensures states == old(states)[e := LeftBy(course)] && sys.log == old(sys).log + AskedBy(course, e)
    {
      hide Inv, StateAfter, Recovered, LeftBy, AskedBy;
      lock := Some(tid);
      states := states[e := Processing];
      Advance(Enter(tid));
      Handle(tid, e, course);
      ok := e in states && Terminal(states[e]);
      lock := None;
      Advance(Leave(tid));
    }

    // The handler and what is made of its ending: no decision means it was never a send, an
    // exception keeps a final state and leaves anything else to be retried.
    method Handle(tid: nat, e: EventId, course: Course)
      requires Holds(tid, e)
      modifies this
      ensures Valid() && txns == old(txns) && lock == old(lock) && sys.marks == old(sys).marks
      ensures tid in sys.threads && sys.threads == old(sys).threads[tid := old(sys).threads[tid].(pc := Leaving(e))]
      ensures states == old(states)[e := LeftBy(course)] && sys.log == old(sys).log + AskedBy(course, e)
    {
      hide Inv;
      match course {
        case NoSend =>
          states := states[e := Ignored];
          Advance(Decide(tid, Ignored));
        case Refuse =>
          states := states[e := Refused];
          Advance(Decide(tid, Refused));
        case Later =>
          states := states[e := Retryable];
          Advance(Decide(tid, Retryable));
        case Raise =>
          states := states[e := Retryable];
          Advance(Decide(tid, Retryable));
        case Dispatch(weather) =>
          var returned := DispatchNative(tid, e, weather);
          if !weather.journalled {
            states := states[e := Retryable];
            Advance(Decide(tid, Retryable));
          }
      }
    }

    // Other threads work here. All a thread knows of them: the system stays well, what was
    // final is final, and its own place is as it left it.
    method Others(tid: nat)
      requires Ready(tid)
      modifies this
      ensures Ready(tid) && sys.threads[tid] == old(sys).threads[tid]
      ensures StillDone(old(states), states) && old(txns) <= txns
    {}

    // A transaction is answered at once if it was marked before; otherwise its events are
    // processed in order, and it is marked only if all of them are done.
    method PutTransaction(tid: nat, txn: TxnId, events: seq<Option<EventId>>, courses: seq<Course>)
      returns (acknowledged: bool)
      requires Valid() && tid !in sys.threads && |courses| == |events|
      modifies this
      ensures Valid()
      ensures old(txn in txns) ==> acknowledged && sys == old(sys)
      ensures acknowledged ==> txn in txns
      ensures (forall e | e in events :: e.None?) ==> acknowledged
      ensures acknowledged && old(txn !in txns) ==> AllDone(states, events, |events|) && Mark(txn, events) in sys.marks
      ensures StillDone(old(states), states)
    {
      if txn in txns {
        return true;
      }
      Advance(Arrive(tid, txn, events));
      acknowledged := true;
      for i := 0 to |events|
        invariant Ready(tid) && sys.threads[tid] == Thread(txn, events, i, acknowledged, Idle)
        invariant StillDone(old(states), states)
        invariant (forall e | e in events :: e.None?) ==> acknowledged
      {
        assert events[i] in events;
        Others(tid);
        ghost var before := states;
        var ok := ProcessOutboundEvent(tid, events[i], courses[i]);
        assert StillDone(before, states) by {
          forall e | DoneIn(before, e) ensures DoneIn(states, e) && states[e] == before[e] {}
        }
        if !ok {
          acknowledged := false;
        }
      }
      if acknowledged {
        txns := txns + {txn};
      }
      Advance(Acknowledge(tid));
    }
  }
}

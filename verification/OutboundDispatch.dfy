/**
 Sending Matrix events through the native engine. Transactions arrive, are replayed and run
 in threads of their own; one lock serialises the dispatch of events; the process may die
 anywhere, and recovers by what its journal of event states says.
 */
module OutboundDispatch {
  import opened Wrappers

  type EventId = string
  type TxnId = string

  // Misfiled: refused, for a reason that an earlier version gave to what was never a send.
  datatype State = Processing | Retryable | Dispatching | Ambiguous | Confirmed | Refused | Ignored | Misfiled

  predicate Terminal(s: State) {
    s.Ambiguous? || s.Confirmed? || s.Refused? || s.Ignored? || s.Misfiled?
  }

  // Only what is under way, or to be retried, is not final.
  lemma FinalStates(s: State)
    ensures Terminal(s) <==> s != Processing && s != Retryable && s != Dispatching
  {}

  // What an invocation of the engine comes back with. It was never started, denied by the
  // engine before sending, accepted, or there is no telling.
  datatype Outcome = NotStarted | Denied | Accepted | Unknown

  function StateAfter(outcome: Outcome): State {
    match outcome
    case NotStarted => Retryable
    case Denied => Refused
    case Accepted => Confirmed
    case Unknown => Ambiguous
  }

  // No outcome: it has not come back, or the process died meanwhile.
  datatype Invocation = Invocation(event: EventId, outcome: Option<Outcome>)

  // Where a thread is with the event it is at: outside the lock, deciding, the dispatch
  // journalled, the engine invoked (as entry k of the log), or about to give up the lock.
  datatype Pc = Idle | Handling(e: EventId) | Journalled(e: EventId) | Invoked(e: EventId, k: nat) | Leaving(e: EventId)

  // A transaction being worked off. An event without an id is never a send.
  datatype Thread = Thread(txn: TxnId, events: seq<Option<EventId>>, at: nat, complete: bool, pc: Pc)

  datatype Mark = Mark(txn: TxnId, events: seq<Option<EventId>>)

  // `states` and `marks` are tables; `threads` and `lock` die with the process; `log` is
  // what the engine was asked to do.
  datatype Sys = Sys(states: map<EventId, State>, marks: set<Mark>, threads: map<nat, Thread>, lock: Option<nat>,
                     log: seq<Invocation>)

  datatype Action =
    | Arrive(tid: nat, txn: TxnId, events: seq<Option<EventId>>)
    | Skip(tid: nat)
    | Busy(tid: nat)
    | Enter(tid: nat)
    | Decide(tid: nat, state: State)
    | Journal(tid: nat)
    | Invoke(tid: nat)
    | Return(tid: nat, outcome: Outcome)
    | Lose(tid: nat, outcome: Outcome, recorded: bool)
    | Leave(tid: nat)
    | Acknowledge(tid: nat)
    | Restart

  predicate TxnSeen(s: Sys, txn: TxnId) {
    exists m | m in s.marks :: m.txn == txn
  }

  predicate At(s: Sys, tid: nat) {
    tid in s.threads && s.threads[tid].at < |s.threads[tid].events|
  }

  predicate Enabled(s: Sys, a: Action) {
    match a
    case Arrive(tid, txn, events) => tid !in s.threads && !TxnSeen(s, txn)
    case Skip(tid) =>
      At(s, tid) && s.threads[tid].pc.Idle? && s.threads[tid].events[s.threads[tid].at].None?
    case Busy(tid) =>
      At(s, tid) && s.threads[tid].pc.Idle? && s.threads[tid].events[s.threads[tid].at].Some? && s.lock.Some?
    case Enter(tid) =>
      At(s, tid) && s.threads[tid].pc.Idle? && s.threads[tid].events[s.threads[tid].at].Some? && s.lock.None?
    case Decide(tid, state) =>
      tid in s.threads && s.threads[tid].pc.Handling? && (state.Refused? || state.Retryable? || state.Ignored?)
    case Journal(tid) => tid in s.threads && s.threads[tid].pc.Handling?
    case Invoke(tid) => tid in s.threads && s.threads[tid].pc.Journalled?
    case Return(tid, _) => tid in s.threads && s.threads[tid].pc.Invoked? && s.threads[tid].pc.k < |s.log|
    case Lose(tid, _, _) => tid in s.threads && s.threads[tid].pc.Invoked? && s.threads[tid].pc.k < |s.log|
    case Leave(tid) => tid in s.threads && s.threads[tid].pc.Leaving?
    case Acknowledge(tid) =>
      tid in s.threads && s.threads[tid].pc.Idle? && s.threads[tid].at == |s.threads[tid].events|
    case Restart => true
  }

  function Recovered(states: map<EventId, State>): map<EventId, State> {
    map e | e in states ::
      match states[e]
      case Dispatching => Ambiguous
      case Processing => Retryable
      case Misfiled => Ignored
      case other => other
  }

  function Passed(t: Thread, ok: bool): Thread {
    t.(at := t.at + 1, complete := t.complete && ok, pc := Idle)
  }

  function To(s: Sys, tid: nat, t: Thread): Sys {
    s.(threads := s.threads[tid := t])
  }

  // An event that is done is passed over; one whose dispatch was journalled and never
  // resolved can only be called ambiguous; any other is taken up.
  function Entered(s: Sys, tid: nat): Sys
    requires Enabled(s, Enter(tid))
  {
    var t := s.threads[tid];
    var e := t.events[t.at].value;
    if e in s.states && Terminal(s.states[e]) then To(s, tid, Passed(t, true))
    else if e in s.states && s.states[e].Dispatching? then
      To(s, tid, Passed(t, true)).(states := s.states[e := Ambiguous])
    else
      To(s, tid, t.(pc := Handling(e))).(states := s.states[e := Processing], lock := Some(tid))
  }

  function Next(s: Sys, a: Action): Sys
    requires Enabled(s, a)
  {
    match a
    case Arrive(tid, txn, events) => To(s, tid, Thread(txn, events, 0, true, Idle))
    case Skip(tid) => To(s, tid, Passed(s.threads[tid], true))
    case Busy(tid) => To(s, tid, Passed(s.threads[tid], false))
    case Enter(tid) => Entered(s, tid)
    case Decide(tid, state) =>
      var t := s.threads[tid];
      To(s, tid, t.(pc := Leaving(t.pc.e))).(states := s.states[t.pc.e := state])
    case Journal(tid) =>
      var t := s.threads[tid];
      To(s, tid, t.(pc := Journalled(t.pc.e))).(states := s.states[t.pc.e := Dispatching])
    case Invoke(tid) =>
      var t := s.threads[tid];
      To(s, tid, t.(pc := Invoked(t.pc.e, |s.log|))).(log := s.log + [Invocation(t.pc.e, None)])
    case Return(tid, outcome) =>
      var t := s.threads[tid];
      To(s, tid, t.(pc := Leaving(t.pc.e)))
        .(states := s.states[t.pc.e := StateAfter(outcome)], log := s.log[t.pc.k := Invocation(t.pc.e, Some(outcome))])
    case Lose(tid, outcome, recorded) =>
      var t := s.threads[tid];
      To(s, tid, t.(pc := Leaving(t.pc.e)))
        .(states := s.states[t.pc.e := if recorded then Ambiguous else Dispatching],
          log := s.log[t.pc.k := Invocation(t.pc.e, Some(outcome))])
    case Leave(tid) =>
      var t := s.threads[tid];
      To(s, tid, Passed(t, t.pc.e in s.states && Terminal(s.states[t.pc.e]))).(lock := None)
    case Acknowledge(tid) =>
      var t := s.threads[tid];
      s.(threads := s.threads - {tid}, marks := if t.complete then s.marks + {Mark(t.txn, t.events)} else s.marks)
    case Restart => s.(states := Recovered(s.states), threads := map[], lock := None)
  }

  ghost predicate Legal(s: Sys, run: seq<Action>)
    decreases |run|, 0
  {
    run == [] || (Legal(s, run[..|run| - 1]) && Enabled(Exec(s, run[..|run| - 1]), run[|run| - 1]))
  }

  ghost function Exec(s: Sys, run: seq<Action>): Sys
    requires Legal(s, run)
    decreases |run|, 1
  {
    if run == [] then s else Next(Exec(s, run[..|run| - 1]), run[|run| - 1])
  }

  // The table may come from an earlier version, with rows that it misfiled.
  function Start(misfiled: set<EventId>): Sys {
    Sys(map e | e in misfiled :: Misfiled, {}, map[], None, [])
  }

  // ------------------------------------------------------------------ the invariant

  predicate DoneIn(states: map<EventId, State>, e: EventId) {
    e in states && Terminal(states[e])
  }

  predicate AllDone(states: map<EventId, State>, events: seq<Option<EventId>>, n: nat) {
    forall i | 0 <= i < n && i < |events| && events[i].Some? :: DoneIn(states, events[i].value)
  }

  // The engine can have been asked before only to no avail.
  ghost predicate Untried(log: seq<Invocation>, e: EventId) {
    forall i | 0 <= i < |log| && log[i].event == e :: log[i].outcome == Some(NotStarted)
  }

  // An invocation that may matter is its event's last one, and the event is not open.
  ghost predicate LogInv(states: map<EventId, State>, log: seq<Invocation>) {
    && (forall i, j | 0 <= i < j < |log| && log[i].event == log[j].event :: log[i].outcome == Some(NotStarted))
    && (forall i | 0 <= i < |log| && log[i].outcome != Some(NotStarted) ::
          DoneIn(states, log[i].event) || (log[i].event in states && states[log[i].event].Dispatching?))
  }

  ghost predicate PcInv(s: Sys, pc: Pc) {
    match pc
    case Idle => true
    case Handling(e) => e in s.states && s.states[e].Processing?
    case Journalled(e) => e in s.states && s.states[e].Dispatching? && Untried(s.log, e)
    case Invoked(e, k) =>
      e in s.states && s.states[e].Dispatching? && k < |s.log| && s.log[k] == Invocation(e, None)
    case Leaving(e) => true
  }

  ghost predicate ThreadsInv(s: Sys) {
    && (forall tid | tid in s.threads :: PcInv(s, s.threads[tid].pc))
    && (forall tid | tid in s.threads && !s.threads[tid].pc.Idle? :: s.lock == Some(tid))
    && (forall tid | tid in s.threads && s.threads[tid].complete ::
          AllDone(s.states, s.threads[tid].events, s.threads[tid].at))
  }

  ghost predicate LeavingInv(s: Sys) {
    forall tid | tid in s.threads && !s.threads[tid].pc.Idle? ::
      At(s, tid) && s.threads[tid].events[s.threads[tid].at] == Some(s.threads[tid].pc.e)
  }

  ghost predicate MarksInv(s: Sys) {
    forall m | m in s.marks :: AllDone(s.states, m.events, |m.events|)
  }

  ghost predicate AcceptedBefore(log: seq<Invocation>, e: EventId) {
    exists i | 0 <= i < |log| :: log[i] == Invocation(e, Some(Accepted))
  }

  ghost predicate TruthInv(states: map<EventId, State>, log: seq<Invocation>) {
    forall e | e in states && states[e].Confirmed? :: AcceptedBefore(log, e)
  }

  // What the answer to an invocation leaves its event as, unless the answer was lost.
  predicate Tells(outcome: Option<Outcome>, state: State) {
    || state == Dispatching || state == Ambiguous
    || (outcome == Some(Accepted) && state == Confirmed)
    || (outcome == Some(Denied) && state == Refused)
  }

  ghost predicate FatesInv(states: map<EventId, State>, log: seq<Invocation>) {
    forall i | 0 <= i < |log| && log[i].outcome != Some(NotStarted) ::
      log[i].event in states && Tells(log[i].outcome, states[log[i].event])
  }

  ghost predicate Inv(s: Sys) {
    && LogInv(s.states, s.log) && FatesInv(s.states, s.log) && TruthInv(s.states, s.log)
    && ThreadsInv(s) && LeavingInv(s) && MarksInv(s)
  }

  // What is final stays as it is; only a restart files under another name what was misfiled.
  function Refiled(state: State): State {
    if state.Misfiled? then Ignored else state
  }

  lemma DoneIsFinal(s: Sys, a: Action, e: EventId)
    requires Inv(s) && Enabled(s, a) && DoneIn(s.states, e)
    ensures DoneIn(Next(s, a).states, e)
    ensures Next(s, a).states[e] == if a.Restart? then Refiled(s.states[e]) else s.states[e]
  {
  }

  ghost predicate StillDone(before: map<EventId, State>, after: map<EventId, State>) {
    forall e | DoneIn(before, e) :: DoneIn(after, e) && after[e] == before[e]
  }

  lemma StepKeepsDone(s: Sys, a: Action)
    requires Inv(s) && Enabled(s, a)
    ensures forall e | DoneIn(s.states, e) :: DoneIn(Next(s, a).states, e)
  {
    forall e | DoneIn(s.states, e) ensures DoneIn(Next(s, a).states, e) {
      DoneIsFinal(s, a, e);
    }
  }

  lemma StepKeepsMarks(s: Sys, a: Action)
    requires Inv(s) && Enabled(s, a)
    ensures MarksInv(Next(s, a))
  {
    StepKeepsDone(s, a);
    var n := Next(s, a);
    forall m | m in n.marks ensures AllDone(n.states, m.events, |m.events|) {
      if m in s.marks {
        assert AllDone(s.states, m.events, |m.events|);
      }
    }
  }

  // One write of the states table, for the event in hand.
  lemma LogKept(states: map<EventId, State>, log: seq<Invocation>, e: EventId, to: State)
    requires LogInv(states, log) && !DoneIn(states, e)
    requires Terminal(to) || to.Dispatching? || Untried(log, e)
    ensures LogInv(states[e := to], log)
  {}

  lemma OpenIsUntried(states: map<EventId, State>, log: seq<Invocation>, e: EventId)
    requires LogInv(states, log) && !DoneIn(states, e) && !(e in states && states[e].Dispatching?)
    ensures Untried(log, e)
  {}

  lemma LogAnswered(states: map<EventId, State>, log: seq<Invocation>, k: nat, e: EventId, outcome: Outcome, to: State)
    requires LogInv(states, log) && k < |log| && log[k] == Invocation(e, None)
    requires e in states && states[e].Dispatching?
    requires Terminal(to) || to.Dispatching? || outcome.NotStarted?
    ensures LogInv(states[e := to], log[k := Invocation(e, Some(outcome))])
  {}

  lemma LogInvoked(states: map<EventId, State>, log: seq<Invocation>, e: EventId)
    requires LogInv(states, log) && Untried(log, e) && e in states && states[e].Dispatching?
    ensures LogInv(states, log + [Invocation(e, None)])
  {}

  lemma LogRecovered(states: map<EventId, State>, log: seq<Invocation>)
    requires LogInv(states, log)
    ensures LogInv(Recovered(states), log)
  {}

  lemma StepKeepsLog(s: Sys, a: Action)
    requires Inv(s) && Enabled(s, a)
    ensures LogInv(Next(s, a).states, Next(s, a).log)
  {
    match a
    case Enter(tid) =>
      var e := s.threads[tid].events[s.threads[tid].at].value;
      if !DoneIn(s.states, e) {
        if e in s.states && s.states[e].Dispatching? {
          LogKept(s.states, s.log, e, Ambiguous);
        } else {
          OpenIsUntried(s.states, s.log, e);
          LogKept(s.states, s.log, e, Processing);
        }
      }
    case Decide(tid, state) =>
      var e := s.threads[tid].pc.e;
      OpenIsUntried(s.states, s.log, e);
      LogKept(s.states, s.log, e, state);
    case Journal(tid) =>
      LogKept(s.states, s.log, s.threads[tid].pc.e, Dispatching);
    case Invoke(tid) =>
      LogInvoked(s.states, s.log, s.threads[tid].pc.e);
    case Return(tid, outcome) =>
      var pc := s.threads[tid].pc;
      LogAnswered(s.states, s.log, pc.k, pc.e, outcome, StateAfter(outcome));
    case Lose(tid, outcome, recorded) =>
      var pc := s.threads[tid].pc;
      LogAnswered(s.states, s.log, pc.k, pc.e, outcome, if recorded then Ambiguous else Dispatching);
    case Restart =>
      LogRecovered(s.states, s.log);
    case _ =>
  }

  lemma LogGrows(before: seq<Invocation>, after: seq<Invocation>, e: EventId)
    requires |before| <= |after| && AcceptedBefore(before, e)
    requires forall i | 0 <= i < |before| && before[i].outcome.Some? :: after[i] == before[i]
    ensures AcceptedBefore(after, e)
  {
    var i :| 0 <= i < |before| && before[i] == Invocation(e, Some(Accepted));
    assert after[i] == before[i];
  }

  lemma StepKeepsTruth(s: Sys, a: Action)
    requires Inv(s) && Enabled(s, a)
    ensures TruthInv(Next(s, a).states, Next(s, a).log)
  {
    var n := Next(s, a);
    if a.Return? || a.Lose? {
      assert PcInv(s, s.threads[a.tid].pc);
    }
    forall e | e in n.states && n.states[e].Confirmed? ensures AcceptedBefore(n.log, e) {
      if e in s.states && s.states[e].Confirmed? {
        LogGrows(s.log, n.log, e);
      } else {
        assert n.log[s.threads[a.tid].pc.k] == Invocation(e, Some(Accepted));
      }
    }
  }

  lemma FatesKept(states: map<EventId, State>, log: seq<Invocation>, e: EventId, to: State)
    requires FatesInv(states, log) && (Untried(log, e) || to.Dispatching? || to.Ambiguous?)
    ensures FatesInv(states[e := to], log)
  {}

  lemma FateAnswered(states: map<EventId, State>, log: seq<Invocation>, k: nat, e: EventId, outcome: Outcome, to: State)
    requires LogInv(states, log) && FatesInv(states, log) && k < |log| && log[k] == Invocation(e, None)
    requires outcome.NotStarted? || Tells(Some(outcome), to)
    ensures FatesInv(states[e := to], log[k := Invocation(e, Some(outcome))])
  {
    assert forall i | 0 <= i < |log| && log[i].event == e && i != k :: log[i].outcome == Some(NotStarted);
  }

  lemma FatesRecovered(states: map<EventId, State>, log: seq<Invocation>)
    requires FatesInv(states, log)
    ensures FatesInv(Recovered(states), log)
  {}

  lemma StepKeepsFates(s: Sys, a: Action)
    requires Inv(s) && Enabled(s, a)
    ensures FatesInv(Next(s, a).states, Next(s, a).log)
  {
    match a
    case Enter(tid) =>
      var e := s.threads[tid].events[s.threads[tid].at].value;
      if !DoneIn(s.states, e) {
        if e in s.states && s.states[e].Dispatching? {
          FatesKept(s.states, s.log, e, Ambiguous);
        } else {
          OpenIsUntried(s.states, s.log, e);
          FatesKept(s.states, s.log, e, Processing);
        }
      }
    case Decide(tid, state) =>
      OpenIsUntried(s.states, s.log, s.threads[tid].pc.e);
      FatesKept(s.states, s.log, s.threads[tid].pc.e, state);
    case Journal(tid) => FatesKept(s.states, s.log, s.threads[tid].pc.e, Dispatching);
    case Invoke(tid) => assert PcInv(s, s.threads[tid].pc);
    case Return(tid, outcome) =>
      var pc := s.threads[tid].pc;
      FateAnswered(s.states, s.log, pc.k, pc.e, outcome, StateAfter(outcome));
    case Lose(tid, outcome, recorded) =>
      var pc := s.threads[tid].pc;
      FateAnswered(s.states, s.log, pc.k, pc.e, outcome, if recorded then Ambiguous else Dispatching);
    case Restart => FatesRecovered(s.states, s.log);
    case _ =>
  }

  lemma StepKeepsLeaving(s: Sys, a: Action)
    requires Inv(s) && Enabled(s, a)
    ensures LeavingInv(Next(s, a))
  {}

  lemma StepKeepsPcs(s: Sys, a: Action)
    requires Inv(s) && Enabled(s, a)
    ensures var n := Next(s, a);
      && (forall tid | tid in n.threads :: PcInv(n, n.threads[tid].pc))
      && (forall tid | tid in n.threads && !n.threads[tid].pc.Idle? :: n.lock == Some(tid))
  {
    var n := Next(s, a);
    forall tid | tid in n.threads
      ensures PcInv(n, n.threads[tid].pc) && (!n.threads[tid].pc.Idle? ==> n.lock == Some(tid))
    {
      if tid in s.threads && n.threads[tid] == s.threads[tid] {
        assert PcInv(s, s.threads[tid].pc);
      }
      if a.Journal? && tid == a.tid {
        OpenIsUntried(s.states, s.log, s.threads[tid].pc.e);
      }
    }
  }

  lemma StepKeepsProgress(s: Sys, a: Action)
    requires Inv(s) && Enabled(s, a)
    ensures var n := Next(s, a);
      forall tid | tid in n.threads && n.threads[tid].complete ::
        AllDone(n.states, n.threads[tid].events, n.threads[tid].at)
  {
    StepKeepsDone(s, a);
    var n := Next(s, a);
    forall tid | tid in n.threads && n.threads[tid].complete
      ensures AllDone(n.states, n.threads[tid].events, n.threads[tid].at)
    {
      if tid in s.threads {
        assert s.threads[tid].complete ==> AllDone(s.states, s.threads[tid].events, s.threads[tid].at);
      }
    }
  }

  lemma StepKeepsInv(s: Sys, a: Action)
    requires Inv(s) && Enabled(s, a)
    ensures Inv(Next(s, a))
  {
    StepKeepsLog(s, a);
    StepKeepsFates(s, a);
    StepKeepsTruth(s, a);
    StepKeepsLeaving(s, a);
    StepKeepsMarks(s, a);
    StepKeepsPcs(s, a);
    StepKeepsProgress(s, a);
  }

  lemma {:induction false} RunKeepsInv(s: Sys, run: seq<Action>)
    requires Inv(s) && Legal(s, run)
    ensures Inv(Exec(s, run))
    decreases |run|
  {
    if run != [] {
      RunKeepsInv(s, run[..|run| - 1]);
      StepKeepsInv(Exec(s, run[..|run| - 1]), run[|run| - 1]);
    }
  }

  // ------------------------------------------------------------------ what every run keeps

  // Over replays, concurrent transactions and restarts at any point, the engine is asked to
  // send an event again only if every earlier time it could not even be started; so what may
  // have been sent was asked for once.
  lemma SentAtMostOnce(misfiled: set<EventId>, run: seq<Action>, i: nat, j: nat)
    requires Legal(Start(misfiled), run) && i < j < |Exec(Start(misfiled), run).log|
    requires Exec(Start(misfiled), run).log[i].event == Exec(Start(misfiled), run).log[j].event
    ensures Exec(Start(misfiled), run).log[i].outcome == Some(NotStarted)
  {
    RunKeepsInv(Start(misfiled), run);
  }

  // A transaction is marked only when every send in it has reached a state that is final.
  lemma MarkedMeansDone(misfiled: set<EventId>, run: seq<Action>, more: seq<Action>, m: Mark, i: nat)
    requires Legal(Start(misfiled), run + more) && Legal(Start(misfiled), run) && m in Exec(Start(misfiled), run).marks
    requires i < |m.events| && m.events[i].Some?
    ensures DoneIn(Exec(Start(misfiled), run).states, m.events[i].value)
    ensures DoneIn(Exec(Start(misfiled), run + more).states, m.events[i].value)
    ensures var sooner, later := Exec(Start(misfiled), run).states[m.events[i].value],
                                Exec(Start(misfiled), run + more).states[m.events[i].value];
      later == sooner || later == Refiled(sooner)
    decreases |more|
  {
    RunKeepsInv(Start(misfiled), run);
    if more == [] {
      assert run + more == run;
    } else {
      var front := more[..|more| - 1];
      assert (run + more)[..|run + more| - 1] == run + front;
      MarkedMeansDone(misfiled, run, front, m, i);
      RunKeepsInv(Start(misfiled), run + front);
      DoneIsFinal(Exec(Start(misfiled), run + front), more[|more| - 1], m.events[i].value);
    }
  }

  // What may have been sent is never open again: it is final, or its dispatch is still
  // journalled, to be called ambiguous by whoever looks next.
  lemma SentIsNeverOpen(misfiled: set<EventId>, run: seq<Action>, i: nat)
    requires Legal(Start(misfiled), run) && i < |Exec(Start(misfiled), run).log|
    requires Exec(Start(misfiled), run).log[i].outcome !in {Some(NotStarted), Some(Denied)}
    ensures var s := Exec(Start(misfiled), run);
      s.log[i].event in s.states
      && (Terminal(s.states[s.log[i].event]) || s.states[s.log[i].event].Dispatching?)
  {
    RunKeepsInv(Start(misfiled), run);
  }

  // What the engine accepted is confirmed, what it denied is refused, and what it may have
  // sent unheard is ambiguous; short of that its dispatch is still journalled.
  lemma FatesAreTold(misfiled: set<EventId>, run: seq<Action>, i: nat)
    requires Legal(Start(misfiled), run) && i < |Exec(Start(misfiled), run).log|
    requires Exec(Start(misfiled), run).log[i].outcome != Some(NotStarted)
    ensures var s := Exec(Start(misfiled), run);
      && s.log[i].event in s.states
      && var state := s.states[s.log[i].event];
      && (s.log[i].outcome == Some(Accepted) ==> state == Confirmed || state == Ambiguous || state == Dispatching)
      && (s.log[i].outcome == Some(Denied) ==> state == Refused || state == Ambiguous || state == Dispatching)
      && (s.log[i].outcome == Some(Unknown) ==> state == Ambiguous || state == Dispatching)
  {
    RunKeepsInv(Start(misfiled), run);
  }

  // An answer that is recorded says so at once; an engine that could not be started leaves
  // the event to be tried again.
  lemma AnswerIsRecorded(s: Sys, tid: nat, outcome: Outcome)
    requires Inv(s) && Enabled(s, Return(tid, outcome))
    ensures var n, e := Next(s, Return(tid, outcome)), s.threads[tid].pc.e;
      && e in n.states && n.log[s.threads[tid].pc.k] == Invocation(e, Some(outcome))
      && (outcome == Accepted <==> n.states[e] == Confirmed) && (outcome == Denied <==> n.states[e] == Refused)
      && (outcome == Unknown <==> n.states[e] == Ambiguous) && (outcome == NotStarted <==> n.states[e] == Retryable)
  {}

  // And what is called confirmed was accepted by the engine.
  lemma ConfirmedWasAccepted(misfiled: set<EventId>, run: seq<Action>, e: EventId)
    requires Legal(Start(misfiled), run)
    requires e in Exec(Start(misfiled), run).states && Exec(Start(misfiled), run).states[e].Confirmed?
    ensures AcceptedBefore(Exec(Start(misfiled), run).log, e)
  {
    RunKeepsInv(Start(misfiled), run);
  }
}
